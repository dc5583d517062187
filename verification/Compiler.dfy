// syncInternalGraph (internal/kernel/compiler_internal.go): writing a plan into the binding graph.

module CompilerFacts {
  import opened Outcomes
  import opened Sorting
  import opened Model
  import opened BindingGraph
  import opened DecoderFacts

  datatype Plan = Plan(base: Snapshot, objects: map<Ref, PlannedObject>)

  function Planned(plan: Plan): Objects {
    map r | r in plan.objects :: plan.objects[r].value
  }

  // The base entity a planned entity continues, if any.
  function Claim(plan: Plan, e: Entity): Option<Entity> {
    if e.ref !in plan.objects || plan.objects[e.ref].baseRef.None? then None
    else
      var base := plan.objects[e.ref].baseRef.value;
      match e
      case Obj(_) => Some(Obj(base))
      case Prop(_, name) =>
        var source := BaseName(plan.objects[e.ref], name);
        if source == "" then None else Some(Prop(base, source))
  }

  // A planned entity that keeps the node of a base entity.
  predicate Kept(plan: Plan, e: Entity) {
    HasEntity(Planned(plan), e) && Claim(plan, e).Some?
  }

  ghost predicate BasesKnown(plan: Plan) {
    forall r {:trigger plan.objects[r]} :: r in plan.objects && plan.objects[r].baseRef.Some? ==>
      plan.objects[r].baseRef.value in plan.base.records && plan.objects[r].baseRef.value.kind == r.kind
  }

  ghost predicate SourcesKnown(plan: Plan) {
    forall r, name {:trigger BaseName(plan.objects[r], name)} ::
      r in plan.objects && BaseName(plan.objects[r], name) != "" && HasProperty(Planned(plan), r, name) ==>
        && plan.objects[r].baseRef.Some?
        && HasProperty(ObjectsOf(plan.base), plan.objects[r].baseRef.value, BaseName(plan.objects[r], name))
  }

  ghost predicate ClaimsApart(plan: Plan) {
    forall a, b {:trigger Claim(plan, a), Claim(plan, b)} ::
      Kept(plan, a) && Kept(plan, b) && Claim(plan, a) == Claim(plan, b) ==> a == b
  }

  // What planOntologyEntries leaves behind: objects under their own names, each base object and
  // base Property continued at most once and by an object of the same kind.
  ghost predicate ValidPlan(plan: Plan) {
    WellFormed(Planned(plan)) && BasesKnown(plan) && SourcesKnown(plan) && ClaimsApart(plan)
  }

  lemma ClaimInBase(plan: Plan, e: Entity)
    requires BasesKnown(plan) && SourcesKnown(plan) && Kept(plan, e)
    ensures HasEntity(ObjectsOf(plan.base), Claim(plan, e).value)
  {
  }

  function KeptId(plan: Plan, baseIds: Ids, e: Entity): Id
    requires Claim(plan, e).Some? && Claim(plan, e).value in baseIds
  {
    baseIds[Claim(plan, e).value]
  }

  // Two surviving entities never share a node.
  lemma KeptIdsApart(plan: Plan, baseIds: Ids, a: Entity, b: Entity)
    requires ClaimsApart(plan) && Injective(baseIds) && Kept(plan, a) && Kept(plan, b)
    requires Claim(plan, a).value in baseIds && Claim(plan, b).value in baseIds
    requires KeptId(plan, baseIds, a) == KeptId(plan, baseIds, b)
    ensures a == b
  {
  }

  // A continued node has the category and kind the plan asks for.
  lemma SameCategory(plan: Plan, nodes: map<Id, Node>, baseIds: Ids, e: Entity)
    requires ValidPlan(plan) && WellNamed(ObjectsOf(plan.base)) && NodesHold(nodes, ObjectsOf(plan.base), baseIds)
    requires Kept(plan, e)
    ensures Claim(plan, e).value in baseIds && KeptId(plan, baseIds, e) in nodes
    ensures nodes[KeptId(plan, baseIds, e)].category == Content(Planned(plan), e).category
    ensures nodes[KeptId(plan, baseIds, e)].kind == Content(Planned(plan), e).kind
  {
    ClaimInBase(plan, e);
    var c := Claim(plan, e).value;
    assert NodeHolds(nodes, ObjectsOf(plan.base), baseIds, c);
    match e {
      case Obj(r) =>
        assert RefOf(ObjectsOf(plan.base)[c.ref]) == c.ref && RefOf(Planned(plan)[r]) == r;
      case Prop(r, name) =>
    }
  }

  // ----- the graph while it is being rewritten

  // Every node present belongs to a planned entity and already has its planned content.
  ghost predicate NodesPartly(nodes: map<Id, Node>, objects: Objects, ids: Ids) {
    && Injective(ids)
    && (forall e {:trigger NodeHolds(nodes, objects, ids, e)} :: e in ids ==> NodeHolds(nodes, objects, ids, e))
    && (forall id {:trigger Names(ids, id)} :: id in nodes ==> Names(ids, id))
  }

  lemma AddNode(nodes: map<Id, Node>, objects: Objects, ids: Ids, e: Entity, id: Id)
    requires NodesPartly(nodes, objects, ids) && HasEntity(objects, e) && e !in ids && id !in nodes
    ensures NodesPartly(nodes[id := Content(objects, e)], objects, ids[e := id])
  {
    var more, grown := nodes[id := Content(objects, e)], ids[e := id];
    forall f | f in grown ensures NodeHolds(more, objects, grown, f) {
      if f != e {
        assert NodeHolds(nodes, objects, ids, f);
      }
    }
    forall a, b | a in grown && b in grown && grown[a] == grown[b] ensures a == b {
      if a in ids { assert NodeHolds(nodes, objects, ids, a); }
      if b in ids { assert NodeHolds(nodes, objects, ids, b); }
    }
    forall k | k in more ensures Names(grown, k) {
      if k != id {
        assert Names(ids, k);
        var f :| f in ids && ids[f] == k;
        assert grown[f] == k;
      } else {
        assert grown[e] == k;
      }
    }
  }

  // ----- the plan's snapshot

  function TargetRecord(value: Value, r: Ref, ids: Ids): Record
    requires Obj(r) in ids
    requires value.DefinitionValue? ==> forall name :: name in PropertyNames(value.definition.properties) ==> Prop(r, name) in ids
  {
    match value
    case DomainValue(domain) => DomainRecord(ids[Obj(r)], domain)
    case DefinitionValue(definition) =>
      DefinitionRecord(ids[Obj(r)], definition, map name | name in PropertyNames(definition.properties) :: ids[Prop(r, name)])
  }

  // Every planned entity has an identity.
  ghost predicate Complete(objects: Objects, ids: Ids) {
    forall e :: HasEntity(objects, e) <==> e in ids
  }

  function Target(objects: Objects, ids: Ids, edges: map<Id, Edge>): Snapshot
    requires Complete(objects, ids)
  {
    Snapshot(map r | r in objects ::
               assert HasEntity(objects, Obj(r));
               assert objects[r].DefinitionValue? ==>
                 forall name :: name in PropertyNames(objects[r].definition.properties) ==> HasEntity(objects, Prop(r, name));
               TargetRecord(objects[r], r, ids),
             edges)
  }

  function TargetSchema(objects: Objects): Schema {
    map r | r in objects && objects[r].DefinitionValue? :: Bare(objects[r].definition)
  }

  lemma TargetValues(objects: Objects, ids: Ids, edges: map<Id, Edge>)
    requires Complete(objects, ids)
    ensures Target(objects, ids, edges).records.Keys == objects.Keys
    ensures ObjectsOf(Target(objects, ids, edges)) == objects
  {
    var s := Target(objects, ids, edges);
    forall r | r in objects ensures ValueOf(s.records[r]) == objects[r] {
      assert HasEntity(objects, Obj(r));
      assert objects[r].DefinitionValue? ==>
        forall name :: name in PropertyNames(objects[r].definition.properties) ==> HasEntity(objects, Prop(r, name));
      assert s.records[r] == TargetRecord(objects[r], r, ids);
    }
  }

  lemma TargetIds(objects: Objects, ids: Ids, edges: map<Id, Edge>, r: Ref)
    requires Complete(objects, ids) && r in objects
    ensures var record := Target(objects, ids, edges).records[r];
            && Obj(r) in ids && record.id == ids[Obj(r)]
            && (record.DefinitionRecord? ==>
                 && record.definition == objects[r].definition
                 && record.propertyIds.Keys == PropertyNames(record.definition.properties)
                 && forall name :: name in record.propertyIds ==> Prop(r, name) in ids && record.propertyIds[name] == ids[Prop(r, name)])
  {
    assert HasEntity(objects, Obj(r));
    assert objects[r].DefinitionValue? ==>
      forall name :: name in PropertyNames(objects[r].definition.properties) ==> HasEntity(objects, Prop(r, name));
    assert Target(objects, ids, edges).records[r] == TargetRecord(objects[r], r, ids);
  }

  lemma TargetGivesIds(objects: Objects, ids: Ids, edges: map<Id, Edge>)
    requires Complete(objects, ids)
    ensures Covered(Target(objects, ids, edges)) && GivesIds(Target(objects, ids, edges), ids)
  {
    var s := Target(objects, ids, edges);
    TargetValues(objects, ids, edges);
    forall r | r in s.records
      ensures var record := s.records[r];
              && Obj(r) in ids && record.id == ids[Obj(r)]
              && (record.DefinitionRecord? ==>
                   && record.propertyIds.Keys == PropertyNames(record.definition.properties)
                   && forall name :: name in record.propertyIds ==> Prop(r, name) in ids && record.propertyIds[name] == ids[Prop(r, name)])
    {
      TargetIds(objects, ids, edges, r);
    }
    forall e | e in ids
      ensures match e
              case Obj(r) => r in s.records
              case Prop(r, name) => r in s.records && s.records[r].DefinitionRecord? && name in s.records[r].propertyIds
    {
      assert HasEntity(objects, e);
      TargetIds(objects, ids, edges, e.ref);
      assert ValueOf(s.records[e.ref]) == objects[e.ref];
    }
  }

  // A graph that holds the planned objects decodes to the plan's snapshot.
  lemma HeldPlanDecodes(nodes: map<Id, Node>, edges: map<Id, Edge>, objects: Objects, ids: Ids)
    requires WellFormed(objects) && Holds(nodes, edges, objects, ids) && Complete(objects, ids)
    ensures Decodes(TargetSchema(objects), nodes, edges, Target(objects, ids, edges), ids)
    ensures ValidSchema(TargetSchema(objects)) && WellShaped(nodes, edges)
  {
    TargetValues(objects, ids, edges);
    TargetGivesIds(objects, ids, edges);
    PlanSchemaValid(objects);
    PlanGraphShaped(nodes, edges, objects, ids);
  }

  lemma BareTwice(d: Definition)
    ensures Bare(Bare(d)) == Bare(d)
    ensures DistinctProperties(d.properties) ==> DistinctProperties(Bare(d).properties)
  {
    assert forall i :: 0 <= i < |d.properties| ==> Bare(Bare(d)).properties[i] == Bare(d).properties[i];
  }

  lemma PlanSchemaValid(objects: Objects)
    requires WellFormed(objects)
    ensures ValidSchema(TargetSchema(objects))
  {
    var schema := TargetSchema(objects);
    forall r | r in schema
      ensures r == Ref(schema[r].kind, schema[r].name) && IsDefinition(r.kind)
      ensures DistinctProperties(schema[r].properties) && Bare(schema[r]) == schema[r]
    {
      assert WellFormedObject(objects, objects[r]);
      BareTwice(objects[r].definition);
    }
  }

  lemma PlanGraphShaped(nodes: map<Id, Node>, edges: map<Id, Edge>, objects: Objects, ids: Ids)
    requires WellFormed(objects) && Holds(nodes, edges, objects, ids)
    ensures WellShaped(nodes, edges)
  {
    forall d, t | HasMember(objects, d, t) ensures t in objects {
      MembersExist(objects, d, t);
    }
    forall i | i in edges ensures edges[i].start in nodes && edges[i].end in nodes {
      HeldEdgeTyped(nodes, edges, objects, ids, i);
    }
    forall id | id in nodes
      ensures if nodes[id].category == DefinitionBinding then nodes[id].kind == "node" || nodes[id].kind == "relationship"
              else nodes[id].kind == ""
    {
      assert Names(ids, id);
      var e :| e in ids && ids[e] == id;
      assert NodeHolds(nodes, objects, ids, e);
    }
  }

  // ----- edges while the graph is being rewritten

  ghost predicate OwnerExplained(objects: Objects, ids: Ids, edge: Edge) {
    exists l: Link :: l.Owns? && HasLink(objects, l) && Linked(l, ids, edge)
  }

  ghost predicate IsDomain(objects: Objects, r: Ref) {
    r in objects && objects[r].DomainValue?
  }

  // An includes edge from a planned Domain to a planned object.
  ghost predicate BetweenObjects(objects: Objects, ids: Ids, edge: Edge) {
    exists a, t :: IsDomain(objects, a) && Linked(Member(a, t), ids, edge)
  }

  // Owner edges are already as planned; includes edges at least join planned objects.
  ghost predicate EdgesPartly(edges: map<Id, Edge>, objects: Objects, ids: Ids) {
    && NoTwins(edges)
    && (forall i {:trigger OwnerExplained(objects, ids, edges[i])} :: i in edges && edges[i].kind == PropertyOf ==>
         OwnerExplained(objects, ids, edges[i]))
    && (forall i {:trigger BetweenObjects(objects, ids, edges[i])} :: i in edges && edges[i].kind == Includes ==>
         BetweenObjects(objects, ids, edges[i]))
    && (forall r, name {:trigger LinkHolds(edges, ids, Owns(r, name))} :: Prop(r, name) in ids ==>
         LinkHolds(edges, ids, Owns(r, name)))
  }

  ghost predicate Extends(ids: Ids, grown: Ids) {
    forall e :: e in ids ==> e in grown && grown[e] == ids[e]
  }

  lemma ExplainedGrows(edges: map<Id, Edge>, objects: Objects, ids: Ids, grown: Ids, i: Id)
    requires EdgesPartly(edges, objects, ids) && Extends(ids, grown) && i in edges
    ensures edges[i].kind == PropertyOf ==> OwnerExplained(objects, grown, edges[i])
    ensures edges[i].kind == Includes ==> BetweenObjects(objects, grown, edges[i])
  {
    if edges[i].kind == PropertyOf {
      assert OwnerExplained(objects, ids, edges[i]);
      var l: Link :| l.Owns? && HasLink(objects, l) && Linked(l, ids, edges[i]);
      assert Linked(l, grown, edges[i]);
    } else {
      assert BetweenObjects(objects, ids, edges[i]);
      var a, t :| IsDomain(objects, a) && Linked(Member(a, t), ids, edges[i]);
      assert Linked(Member(a, t), grown, edges[i]);
    }
  }

  lemma LinkGrows(edges: map<Id, Edge>, more: map<Id, Edge>, ids: Ids, grown: Ids, l: Link)
    requires LinkHolds(edges, ids, l) && Extends(ids, grown)
    requires forall i :: i in edges ==> i in more && more[i] == edges[i]
    ensures LinkHolds(more, grown, l)
  {
    var i :| i in edges && edges[i] == LinkEdge(l, ids);
    assert more[i] == LinkEdge(l, grown);
  }

  // A new object node leaves the edges as they are.
  lemma EdgesWithObject(edges: map<Id, Edge>, objects: Objects, ids: Ids, r: Ref, id: Id)
    requires EdgesPartly(edges, objects, ids) && Obj(r) !in ids
    ensures EdgesPartly(edges, objects, ids[Obj(r) := id])
  {
    var grown := ids[Obj(r) := id];
    forall i | i in edges
      ensures edges[i].kind == PropertyOf ==> OwnerExplained(objects, grown, edges[i])
      ensures edges[i].kind == Includes ==> BetweenObjects(objects, grown, edges[i])
    {
      ExplainedGrows(edges, objects, ids, grown, i);
    }
    forall q, name | Prop(q, name) in grown ensures LinkHolds(edges, grown, Owns(q, name)) {
      assert LinkHolds(edges, ids, Owns(q, name));
      LinkGrows(edges, edges, ids, grown, Owns(q, name));
    }
  }

  // A new Property node comes with its owner edge.
  lemma EdgesWithProperty(edges: map<Id, Edge>, objects: Objects, ids: Ids, r: Ref, name: string, id: Id, i: Id)
    requires EdgesPartly(edges, objects, ids) && Prop(r, name) !in ids && Obj(r) in ids
    requires HasProperty(objects, r, name) && i !in edges && forall k :: k in edges ==> edges[k].start != id
    ensures EdgesPartly(edges[i := Edge(PropertyOf, id, ids[Obj(r)])], objects, ids[Prop(r, name) := id])
  {
    var grown, edge := ids[Prop(r, name) := id], Edge(PropertyOf, id, ids[Obj(r)]);
    var more := edges[i := edge];
    var l := Owns(r, name);
    assert HasLink(objects, l) && Linked(l, grown, edge);
    forall k | k in more
      ensures more[k].kind == PropertyOf ==> OwnerExplained(objects, grown, more[k])
      ensures more[k].kind == Includes ==> BetweenObjects(objects, grown, more[k])
    {
      if k != i {
        ExplainedGrows(edges, objects, ids, grown, k);
      }
    }
    forall q, other | Prop(q, other) in grown ensures LinkHolds(more, grown, Owns(q, other)) {
      if Prop(q, other) == Prop(r, name) {
        assert more[i] == LinkEdge(l, grown);
      } else {
        assert LinkHolds(edges, ids, Owns(q, other));
        LinkGrows(edges, more, ids, grown, Owns(q, other));
      }
    }
  }

  // ----- what is left of the base after the removals

  ghost predicate Updated(nodes: map<Id, Node>, plan: Plan, baseIds: Ids, e: Entity) {
    && Kept(plan, e) && Claim(plan, e).value in baseIds && KeptId(plan, baseIds, e) in nodes
    && nodes[KeptId(plan, baseIds, e)] == Content(Planned(plan), e)
  }

  ghost predicate RetainedBy(plan: Plan, baseIds: Ids, kept: set<Entity>, id: Id) {
    exists e :: e in kept && Claim(plan, e).Some? && Claim(plan, e).value in baseIds && KeptId(plan, baseIds, e) == id
  }

  function Restrict(nodes: map<Id, Node>, retained: set<Id>): map<Id, Node> {
    map id | id in nodes && id in retained :: nodes[id]
  }

  function RestrictEdges(edges: map<Id, Edge>, retained: set<Id>): map<Id, Edge> {
    map i | i in edges && edges[i].start in retained && edges[i].end in retained :: edges[i]
  }

  function KeptIds(plan: Plan, baseIds: Ids, kept: set<Entity>): Ids
    requires forall e :: e in kept ==> Claim(plan, e).Some? && Claim(plan, e).value in baseIds
  {
    map e | e in kept :: KeptId(plan, baseIds, e)
  }

  // kept is exactly the surviving entities, retained their nodes, and nodes has them rewritten.
  ghost predicate Survivors(plan: Plan, baseIds: Ids, nodes: map<Id, Node>, kept: set<Entity>, retained: set<Id>) {
    && (forall e {:trigger Updated(nodes, plan, baseIds, e)} :: e in kept ==> Updated(nodes, plan, baseIds, e))
    && (forall e {:trigger Kept(plan, e)} :: Kept(plan, e) ==> e in kept)
    && (forall id {:trigger RetainedBy(plan, baseIds, kept, id)} :: id in retained <==> RetainedBy(plan, baseIds, kept, id))
  }

  lemma SurvivorIds(plan: Plan, baseIds: Ids, nodes: map<Id, Node>, kept: set<Entity>, retained: set<Id>)
    requires Survivors(plan, baseIds, nodes, kept, retained)
    ensures forall e :: e in kept ==> Kept(plan, e) && Claim(plan, e).value in baseIds
  {
    forall e | e in kept ensures Kept(plan, e) && Claim(plan, e).value in baseIds {
      assert Updated(nodes, plan, baseIds, e);
    }
  }

  lemma NodesAfterRemoval(plan: Plan, baseIds: Ids, nodes: map<Id, Node>, kept: set<Entity>, retained: set<Id>)
    requires ValidPlan(plan) && Injective(baseIds) && Survivors(plan, baseIds, nodes, kept, retained)
    requires forall e :: e in kept ==> Claim(plan, e).Some? && Claim(plan, e).value in baseIds
    ensures NodesPartly(Restrict(nodes, retained), Planned(plan), KeptIds(plan, baseIds, kept))
  {
    var ids, left := KeptIds(plan, baseIds, kept), Restrict(nodes, retained);
    forall e | e in ids ensures NodeHolds(left, Planned(plan), ids, e) {
      assert Updated(nodes, plan, baseIds, e);
      assert RetainedBy(plan, baseIds, kept, ids[e]);
    }
    forall a, b | a in ids && b in ids && ids[a] == ids[b] ensures a == b {
      assert Updated(nodes, plan, baseIds, a) && Updated(nodes, plan, baseIds, b);
      KeptIdsApart(plan, baseIds, a, b);
    }
    forall id | id in left ensures Names(ids, id) {
      assert RetainedBy(plan, baseIds, kept, id);
      var e :| e in kept && KeptId(plan, baseIds, e) == id;
      assert ids[e] == id;
    }
  }

  lemma EdgesAfterRemoval(plan: Plan, baseIds: Ids, nodes: map<Id, Node>, edges: map<Id, Edge>, kept: set<Entity>, retained: set<Id>)
    requires ValidPlan(plan) && WellNamed(ObjectsOf(plan.base)) && Injective(baseIds) && EdgesHold(edges, ObjectsOf(plan.base), baseIds)
    requires Survivors(plan, baseIds, nodes, kept, retained)
    requires forall e :: e in kept ==> Claim(plan, e).Some? && Claim(plan, e).value in baseIds
    ensures EdgesPartly(RestrictEdges(edges, retained), Planned(plan), KeptIds(plan, baseIds, kept))
  {
    var ids, left := KeptIds(plan, baseIds, kept), RestrictEdges(edges, retained);
    forall i | i in left
      ensures left[i].kind == PropertyOf ==> OwnerExplained(Planned(plan), ids, left[i])
      ensures left[i].kind == Includes ==> BetweenObjects(Planned(plan), ids, left[i])
    {
      KeptEdge(plan, baseIds, nodes, edges, kept, retained, i);
    }
    forall r, name | Prop(r, name) in ids ensures LinkHolds(left, ids, Owns(r, name)) {
      KeptOwner(plan, baseIds, nodes, edges, kept, retained, r, name);
    }
  }

  // The surviving entity whose node id is.
  lemma KeptAt(plan: Plan, baseIds: Ids, nodes: map<Id, Node>, kept: set<Entity>, retained: set<Id>, id: Id) returns (e: Entity)
    requires Survivors(plan, baseIds, nodes, kept, retained) && id in retained
    ensures e in kept && Kept(plan, e) && Claim(plan, e).value in baseIds && KeptId(plan, baseIds, e) == id
  {
    assert RetainedBy(plan, baseIds, kept, id);
    e :| e in kept && Claim(plan, e).Some? && Claim(plan, e).value in baseIds && KeptId(plan, baseIds, e) == id;
    assert Updated(nodes, plan, baseIds, e);
  }

  // A base link between surviving nodes joins the planned entities that claim its ends.
  lemma KeptLink(plan: Plan, baseIds: Ids, kept: set<Entity>, edge: Edge, l: Link, a: Entity, b: Entity)
    requires ClaimsApart(plan) && BasesKnown(plan) && WellNamed(Planned(plan)) && WellNamed(ObjectsOf(plan.base))
    requires Injective(baseIds) && HasLink(ObjectsOf(plan.base), l) && Linked(l, baseIds, edge)
    requires forall e :: e in kept ==> Claim(plan, e).Some? && Claim(plan, e).value in baseIds
    requires forall e :: Kept(plan, e) ==> e in kept
    requires a in kept && Kept(plan, a) && KeptId(plan, baseIds, a) == edge.start
    requires b in kept && Kept(plan, b) && KeptId(plan, baseIds, b) == edge.end
    ensures l.Owns? ==> OwnerExplained(Planned(plan), KeptIds(plan, baseIds, kept), edge)
    ensures l.Member? ==> BetweenObjects(Planned(plan), KeptIds(plan, baseIds, kept), edge)
  {
    var ids := KeptIds(plan, baseIds, kept);
    assert Claim(plan, a).value == Ends(l).0 && Claim(plan, b).value == Ends(l).1;
    if l.Owns? {
      assert Kept(plan, Obj(a.ref)) && Claim(plan, Obj(a.ref)) == Claim(plan, b);
      assert b == Obj(a.ref);
      assert HasLink(Planned(plan), Owns(a.ref, a.name)) && Linked(Owns(a.ref, a.name), ids, edge);
    } else {
      assert RefOf(ObjectsOf(plan.base)[l.domain]) == l.domain && RefOf(Planned(plan)[a.ref]) == a.ref;
      assert IsDomain(Planned(plan), a.ref) && Linked(Member(a.ref, b.ref), ids, edge);
    }
  }

  lemma KeptEdge(plan: Plan, baseIds: Ids, nodes: map<Id, Node>, edges: map<Id, Edge>, kept: set<Entity>, retained: set<Id>, i: Id)
    requires ClaimsApart(plan) && BasesKnown(plan) && WellNamed(Planned(plan)) && WellNamed(ObjectsOf(plan.base))
    requires Injective(baseIds) && EdgesHold(edges, ObjectsOf(plan.base), baseIds)
    requires Survivors(plan, baseIds, nodes, kept, retained)
    requires forall e :: e in kept ==> Claim(plan, e).Some? && Claim(plan, e).value in baseIds
    requires i in edges && edges[i].start in retained && edges[i].end in retained
    ensures edges[i].kind == PropertyOf ==> OwnerExplained(Planned(plan), KeptIds(plan, baseIds, kept), edges[i])
    ensures edges[i].kind == Includes ==> BetweenObjects(Planned(plan), KeptIds(plan, baseIds, kept), edges[i])
  {
    assert Explained(ObjectsOf(plan.base), baseIds, edges[i]);
    var l :| HasLink(ObjectsOf(plan.base), l) && Linked(l, baseIds, edges[i]);
    var a := KeptAt(plan, baseIds, nodes, kept, retained, edges[i].start);
    var b := KeptAt(plan, baseIds, nodes, kept, retained, edges[i].end);
    KeptLink(plan, baseIds, kept, edges[i], l, a, b);
  }

  lemma KeptOwner(plan: Plan, baseIds: Ids, nodes: map<Id, Node>, edges: map<Id, Edge>, kept: set<Entity>, retained: set<Id>,
                  r: Ref, name: string)
    requires ValidPlan(plan) && Injective(baseIds) && EdgesHold(edges, ObjectsOf(plan.base), baseIds)
    requires Survivors(plan, baseIds, nodes, kept, retained)
    requires forall e :: e in kept ==> Claim(plan, e).Some? && Claim(plan, e).value in baseIds
    requires Prop(r, name) in kept
    ensures LinkHolds(RestrictEdges(edges, retained), KeptIds(plan, baseIds, kept), Owns(r, name))
  {
    var ids, left := KeptIds(plan, baseIds, kept), RestrictEdges(edges, retained);
    assert Updated(nodes, plan, baseIds, Prop(r, name));
    var base := plan.objects[r].baseRef.value;
    var l := Owns(base, BaseName(plan.objects[r], name));
    ClaimInBase(plan, Prop(r, name));
    assert HasLink(ObjectsOf(plan.base), l) && LinkHolds(edges, baseIds, l);
    var i :| i in edges && edges[i] == LinkEdge(l, baseIds);
    assert Kept(plan, Obj(r));
    assert RetainedBy(plan, baseIds, kept, ids[Prop(r, name)]) && RetainedBy(plan, baseIds, kept, ids[Obj(r)]);
    assert left[i] == LinkEdge(Owns(r, name), ids);
  }

  // ----- membership

  // The includes edges of one Domain are exactly its planned members.
  ghost predicate MembersHold(edges: map<Id, Edge>, objects: Objects, ids: Ids, d: Ref) {
    && (forall i :: i in edges && edges[i].kind == Includes && Obj(d) in ids && edges[i].start == ids[Obj(d)] ==>
         exists t :: HasMember(objects, d, t) && Linked(Member(d, t), ids, edges[i]))
    && (forall t {:trigger LinkHolds(edges, ids, Member(d, t))} :: HasMember(objects, d, t) ==> LinkHolds(edges, ids, Member(d, t)))
  }

  // When all Domains are done the edges are exactly the planned links.
  lemma AllMembersHold(edges: map<Id, Edge>, objects: Objects, ids: Ids)
    requires WellFormed(objects) && Complete(objects, ids) && Injective(ids) && EdgesPartly(edges, objects, ids)
    requires forall d :: d in objects && objects[d].DomainValue? ==> MembersHold(edges, objects, ids, d)
    ensures EdgesHold(edges, objects, ids)
  {
    forall i | i in edges ensures Explained(objects, ids, edges[i]) {
      if edges[i].kind == PropertyOf {
        assert OwnerExplained(objects, ids, edges[i]);
      } else {
        assert BetweenObjects(objects, ids, edges[i]);
        var d, m :| IsDomain(objects, d) && Linked(Member(d, m), ids, edges[i]);
        assert MembersHold(edges, objects, ids, d);
        var t :| HasMember(objects, d, t) && Linked(Member(d, t), ids, edges[i]);
        assert HasLink(objects, Member(d, t));
      }
    }
    forall l | HasLink(objects, l) ensures LinkHolds(edges, ids, l) {
      match l
      case Owns(r, name) => assert HasEntity(objects, Prop(r, name));
      case Member(d, t) => assert MembersHold(edges, objects, ids, d);
    }
  }
}

module Compiler {
  import opened Outcomes
  import opened Sizes
  import opened Sorting
  import opened Model
  import opened BindingGraph
  import opened DecoderFacts
  import opened Decoder
  import opened CompilerFacts

  // The transaction's view of the internal graph; each method is one of the source's statements.
  class InternalGraph {
    var nodes: map<Id, Node>
    var edges: map<Id, Edge>
    var nextId: Id

    // Identities are handed out in order, so a new one is never one that was in use.
    ghost predicate Valid()
      reads this
    {
      && (forall id :: id in nodes ==> id < nextId)
      && (forall i :: i in edges ==> i < nextId)
      && (forall i :: i in edges ==> edges[i].start < nextId && edges[i].end < nextId)
    }

    constructor (nodes: map<Id, Node>, edges: map<Id, Edge>, nextId: Id)
      ensures this.nodes == nodes && this.edges == edges && this.nextId == nextId
    {
      this.nodes, this.edges, this.nextId := nodes, edges, nextId;
    }

    // MATCH (n) WHERE elementId(n) = $id SET ...
    method UpdateNode(id: Id, kind: string, name: string, title: Option<string>, description: Option<string>)
      requires Valid()
      modifies this`nodes
      ensures Valid()
      ensures nodes == if id !in old(nodes) then old(nodes)
                       else old(nodes)[id := Node(old(nodes)[id].category, if kind == "" then old(nodes)[id].kind else kind,
                                                  name, title, description)]
    {
      if id in nodes {
        nodes := nodes[id := Node(nodes[id].category, if kind == "" then nodes[id].kind else kind, name, title, description)];
      }
    }

    // MATCH (n) WHERE elementId(n) = $id DETACH DELETE n
    method DetachDelete(id: Id)
      requires Valid()
      modifies this`nodes, this`edges
      ensures Valid()
      ensures nodes == old(nodes) - {id}
      ensures edges == map i | i in old(edges) && old(edges)[i].start != id && old(edges)[i].end != id :: old(edges)[i]
    {
      nodes := nodes - {id};
      edges := map i | i in edges && edges[i].start != id && edges[i].end != id :: edges[i];
    }

    method DeleteEdge(i: Id)
      requires Valid()
      modifies this`edges
      ensures Valid() && edges == old(edges) - {i}
    {
      edges := edges - {i};
    }

    // CREATE (n ...) RETURN elementId(n)
    method CreateNode(node: Node) returns (id: Id)
      requires Valid()
      modifies this`nodes, this`nextId
      ensures Valid() && id == old(nextId) && nextId == old(nextId) + 1
      ensures nodes == old(nodes)[id := node]
    {
      id := nextId;
      nextId := nextId + 1;
      nodes := nodes[id := node];
    }

    // MATCH (a), (b) WHERE ... CREATE (a)-[r]->(b); no row comes back when an end is missing.
    method CreateEdge(kind: EdgeType, start: Id, end: Id) returns (r: Result<Id>)
      requires Valid()
      modifies this`edges, this`nextId
      ensures Valid()
      ensures r.Success? <==> start in nodes && end in nodes
      ensures r.Success? ==> r.value == old(nextId) && nextId == old(nextId) + 1 && edges == old(edges)[r.value := Edge(kind, start, end)]
      ensures r.Failure? ==> edges == old(edges) && nextId == old(nextId)
    {
      if start !in nodes || end !in nodes {
        return Failure(Consistency);
      }
      var i := nextId;
      nextId := nextId + 1;
      edges := edges[i := Edge(kind, start, end)];
      return Success(i);
    }
  }

  // ----- surviving objects and Properties are rewritten in place

  function Rewritten(nodes: map<Id, Node>, id: Id, kind: string, name: string, title: Option<string>, description: Option<string>): map<Id, Node> {
    if id !in nodes then nodes
    else nodes[id := Node(nodes[id].category, if kind == "" then nodes[id].kind else kind, name, title, description)]
  }

  // The first loop's variables.
  datatype Survival = Survival(nodes: map<Id, Node>, retained: set<Id>, objectIDs: map<Ref, Id>)

  predicate HasSource(record: Record, planned: PlannedObject, property: Property) {
    record.DefinitionRecord? && BaseName(planned, property.name) in record.propertyIds
  }

  function WriteProperty(record: Record, planned: PlannedObject, property: Property, s: Survival): Survival {
    if BaseName(planned, property.name) == "" || !HasSource(record, planned, property) then s
    else
      var id := record.propertyIds[BaseName(planned, property.name)];
      s.(nodes := Rewritten(s.nodes, id, "", property.name, property.title, property.description), retained := s.retained + {id})
  }

  function WriteProperties(record: Record, planned: PlannedObject, properties: seq<Property>, k: nat, s: Survival): Survival
    requires k <= |properties|
  {
    if k == 0 then s else WriteProperty(record, planned, properties[k - 1], WriteProperties(record, planned, properties, k - 1, s))
  }

  function WriteHead(record: Record, ref: Ref, value: Value, s: Survival): Survival {
    var nodes := match value
      case DomainValue(d) => Rewritten(s.nodes, record.id, "", d.name, d.title, d.description)
      case DefinitionValue(d) => Rewritten(s.nodes, record.id, KindText(ref.kind), d.name, d.title, d.description);
    Survival(nodes, s.retained + {record.id}, s.objectIDs[ref := record.id])
  }

  // One round of the first loop.
  function WriteObject(plan: Plan, ref: Ref, s: Survival): Survival {
    if ref !in plan.objects || plan.objects[ref].baseRef.None? || plan.objects[ref].baseRef.value !in plan.base.records then s
    else
      var planned, record := plan.objects[ref], plan.base.records[plan.objects[ref].baseRef.value];
      var head := WriteHead(record, ref, planned.value, s);
      match planned.value
      case DomainValue(_) => head
      case DefinitionValue(d) => WriteProperties(record, planned, d.properties, |d.properties|, head)
  }

  function WriteObjects(plan: Plan, refs: seq<Ref>, k: nat, s: Survival): Survival
    requires k <= |refs|
  {
    if k == 0 then s else WriteObject(plan, refs[k - 1], WriteObjects(plan, refs, k - 1, s))
  }

  // The continuity records of a planned object are all there.
  predicate Continuous(plan: Plan, ref: Ref) {
    ref in plan.objects && plan.objects[ref].baseRef.Some? ==>
      && plan.objects[ref].baseRef.value in plan.base.records
      && match plan.objects[ref].value
         case DomainValue(_) => true
         case DefinitionValue(d) =>
           forall i :: 0 <= i < |d.properties| && BaseName(plan.objects[ref], d.properties[i].name) != "" ==>
             HasSource(plan.base.records[plan.objects[ref].baseRef.value], plan.objects[ref], d.properties[i])
  }

  method UpdateProperties(g: InternalGraph, record: Record, planned: PlannedObject, properties: seq<Property>, retained: set<Id>,
                          ghost s: Survival)
      returns (r: Result<set<Id>>)
    requires g.Valid() && g.nodes == s.nodes && retained == s.retained
    modifies g`nodes
    ensures g.Valid()
    ensures r.Success? ==> WriteProperties(record, planned, properties, |properties|, s) == s.(nodes := g.nodes, retained := r.value)
    ensures r.Failure? ==> exists i :: 0 <= i < |properties| && BaseName(planned, properties[i].name) != "" && !HasSource(record, planned, properties[i])
  {
    var ids := retained;
    var i := 0;
    while i < |properties|
      invariant 0 <= i <= |properties| && g.Valid()
      invariant WriteProperties(record, planned, properties, i, s) == s.(nodes := g.nodes, retained := ids)
    {
      var property := properties[i];
      var baseName := BaseName(planned, property.name);
      if baseName != "" {
        if record.DomainRecord? || baseName !in record.propertyIds {
          return Failure(Consistency);
        }
        var id := record.propertyIds[baseName];
        ids := ids + {id};
        g.UpdateNode(id, "", property.name, property.title, property.description);
      }
      i := i + 1;
    }
    return Success(ids);
  }

  // The first loop of syncInternalGraph.
  method UpdateSurvivors(g: InternalGraph, plan: Plan, refs: seq<Ref>) returns (r: Result<(set<Id>, map<Ref, Id>)>)
    requires g.Valid()
    modifies g`nodes
    ensures g.Valid()
    ensures r.Success? ==>
              WriteObjects(plan, refs, |refs|, Survival(old(g.nodes), {}, map[])) == Survival(g.nodes, r.value.0, r.value.1)
    ensures r.Failure? ==> exists ref :: ref in refs && !Continuous(plan, ref)
  {
    var retained: set<Id>, objectIDs: map<Ref, Id> := {}, map[];
    ghost var start := Survival(g.nodes, {}, map[]);
    var k := 0;
    while k < |refs|
      invariant 0 <= k <= |refs| && g.Valid()
      invariant WriteObjects(plan, refs, k, start) == Survival(g.nodes, retained, objectIDs)
    {
      var ref := refs[k];
      if ref in plan.objects && plan.objects[ref].baseRef.Some? {
        var planned := plan.objects[ref];
        if planned.baseRef.value !in plan.base.records {
          assert !Continuous(plan, ref);
          return Failure(Consistency);
        }
        var record := plan.base.records[planned.baseRef.value];
        retained := retained + {record.id};
        objectIDs := objectIDs[ref := record.id];
        match planned.value {
          case DomainValue(d) =>
            g.UpdateNode(record.id, "", d.name, d.title, d.description);
          case DefinitionValue(d) =>
            g.UpdateNode(record.id, KindText(ref.kind), d.name, d.title, d.description);
            var properties := UpdateProperties(g, record, planned, d.properties, retained, Survival(g.nodes, retained, objectIDs));
            if properties.Failure? {
              assert !Continuous(plan, ref);
              return Failure(Consistency);
            }
            retained := properties.value;
        }
      }
      k := k + 1;
    }
    return Success((retained, objectIDs));
  }

  // ----- what that loop achieves

  // The state of the first loop: the nodes of done are rewritten, the others still as in the base.
  ghost predicate Rewriting(plan: Plan, baseIds: Ids, before: map<Id, Node>, nodes: map<Id, Node>,
                            done: set<Entity>, retained: set<Id>, objectIDs: map<Ref, Id>) {
    && nodes.Keys == before.Keys
    && (forall id :: id in before ==> nodes[id].category == before[id].category && nodes[id].kind == before[id].kind)
    && (forall e {:trigger Updated(nodes, plan, baseIds, e)} :: e in done ==> Updated(nodes, plan, baseIds, e))
    && (forall id {:trigger RetainedBy(plan, baseIds, done, id)} :: id in retained <==> RetainedBy(plan, baseIds, done, id))
    && (forall r :: r in objectIDs <==> Obj(r) in done)
    && (forall r :: r in objectIDs ==> Claim(plan, Obj(r)).Some? && Claim(plan, Obj(r)).value in baseIds
                                       && objectIDs[r] == KeptId(plan, baseIds, Obj(r)))
  }

  lemma UpdatedMore(plan: Plan, baseIds: Ids, nodes: map<Id, Node>, e: Entity, id: Id, f: Entity)
    requires ClaimsApart(plan) && Injective(baseIds) && id in nodes
    requires Kept(plan, e) && Claim(plan, e).value in baseIds && id == KeptId(plan, baseIds, e)
    requires f == e || Updated(nodes, plan, baseIds, f)
    ensures Updated(nodes[id := Content(Planned(plan), e)], plan, baseIds, f)
  {
    if f != e && KeptId(plan, baseIds, f) == id {
      KeptIdsApart(plan, baseIds, e, f);
    }
  }

  lemma RetainedMore(plan: Plan, baseIds: Ids, done: set<Entity>, e: Entity, id: Id, k: Id)
    requires Claim(plan, e).Some? && Claim(plan, e).value in baseIds && id == KeptId(plan, baseIds, e)
    ensures RetainedBy(plan, baseIds, done + {e}, k) <==> RetainedBy(plan, baseIds, done, k) || k == id
  {
  }

  lemma RewriteMore(plan: Plan, baseIds: Ids, before: map<Id, Node>, nodes: map<Id, Node>,
                    done: set<Entity>, retained: set<Id>, objectIDs: map<Ref, Id>, e: Entity, id: Id)
    requires ClaimsApart(plan) && Injective(baseIds)
    requires Rewriting(plan, baseIds, before, nodes, done, retained, objectIDs)
    requires Kept(plan, e) && Claim(plan, e).value in baseIds && id == KeptId(plan, baseIds, e)
    requires id in before && before[id].category == Content(Planned(plan), e).category
    requires before[id].kind == Content(Planned(plan), e).kind
    ensures id in nodes
    ensures Rewriting(plan, baseIds, before, nodes[id := Content(Planned(plan), e)], done + {e}, retained + {id},
                      if e.Obj? then objectIDs[e.ref := id] else objectIDs)
  {
    var more := nodes[id := Content(Planned(plan), e)];
    forall f | f in done + {e} ensures Updated(more, plan, baseIds, f) {
      if f in done {
        assert Updated(nodes, plan, baseIds, f);
      }
      UpdatedMore(plan, baseIds, nodes, e, id, f);
    }
    forall k ensures k in retained + {id} <==> RetainedBy(plan, baseIds, done + {e}, k) {
      RetainedMore(plan, baseIds, done, e, id, k);
      assert k in retained <==> RetainedBy(plan, baseIds, done, k);
    }
  }

  // sortedObjects: every planned Ref once, in some order.
  ghost predicate Lists(refs: seq<Ref>, objects: map<Ref, PlannedObject>) {
    Distinct(refs) && forall r :: r in refs <==> r in objects
  }

  // The object and the Property of one round.
  ghost predicate SurvivingProperty(plan: Plan, ref: Ref, property: Property) {
    && ref in plan.objects && plan.objects[ref].baseRef.Some? && plan.objects[ref].value.DefinitionValue?
    && property in plan.objects[ref].value.definition.properties && BaseName(plan.objects[ref], property.name) != ""
  }

  lemma PropertyContent(plan: Plan, ref: Ref, property: Property)
    requires ValidPlan(plan) && SurvivingProperty(plan, ref, property)
    ensures Kept(plan, Prop(ref, property.name))
    ensures Content(Planned(plan), Prop(ref, property.name)) == Node(PropertyBinding, "", property.name, property.title, property.description)
  {
    var properties := plan.objects[ref].value.definition.properties;
    assert WellFormedObject(Planned(plan), Planned(plan)[ref]);
    var i :| 0 <= i < |properties| && properties[i] == property;
    FoundAt(properties, i);
  }

  // The base half of the state: a graph that holds the base, and its identities.
  ghost predicate HoldsBase(plan: Plan, baseIds: Ids, before: map<Id, Node>) {
    && WellNamed(ObjectsOf(plan.base)) && GivesIds(plan.base, baseIds) && Covered(plan.base)
    && NodesHold(before, ObjectsOf(plan.base), baseIds)
  }

  lemma SourceOf(plan: Plan, baseIds: Ids, before: map<Id, Node>, ref: Ref, property: Property)
    requires ValidPlan(plan) && HoldsBase(plan, baseIds, before) && SurvivingProperty(plan, ref, property)
    ensures var base := plan.objects[ref].baseRef.value;
            && base in plan.base.records && HasSource(plan.base.records[base], plan.objects[ref], property)
            && var e := Prop(ref, property.name);
            Claim(plan, e).value in baseIds
            && KeptId(plan, baseIds, e) == plan.base.records[base].propertyIds[BaseName(plan.objects[ref], property.name)]
  {
    PropertyContent(plan, ref, property);
    ClaimInBase(plan, Prop(ref, property.name));
  }

  lemma RewriteProperty(plan: Plan, baseIds: Ids, before: map<Id, Node>, s: Survival, done: set<Entity>, ref: Ref, property: Property)
    requires ValidPlan(plan) && HoldsBase(plan, baseIds, before)
    requires Rewriting(plan, baseIds, before, s.nodes, done, s.retained, s.objectIDs)
    requires SurvivingProperty(plan, ref, property)
    ensures plan.objects[ref].baseRef.value in plan.base.records
    ensures var t := WriteProperty(plan.base.records[plan.objects[ref].baseRef.value], plan.objects[ref], property, s);
            Rewriting(plan, baseIds, before, t.nodes, done + {Prop(ref, property.name)}, t.retained, t.objectIDs)
  {
    var e := Prop(ref, property.name);
    PropertyContent(plan, ref, property);
    SourceOf(plan, baseIds, before, ref, property);
    SameCategory(plan, before, baseIds, e);
    RewriteMore(plan, baseIds, before, s.nodes, done, s.retained, s.objectIDs, e, KeptId(plan, baseIds, e));
  }

  // The entity one round of the Property loop adds to the rewritten ones.
  function Touched(planned: PlannedObject, ref: Ref, property: Property): set<Entity> {
    if BaseName(planned, property.name) == "" then {} else {Prop(ref, property.name)}
  }

  function AllTouched(planned: PlannedObject, ref: Ref, properties: seq<Property>, k: nat): set<Entity>
    requires k <= |properties|
  {
    if k == 0 then {} else AllTouched(planned, ref, properties, k - 1) + Touched(planned, ref, properties[k - 1])
  }

  lemma {:induction false} TouchedAll(planned: PlannedObject, ref: Ref, properties: seq<Property>, k: nat, i: nat)
    requires i < k <= |properties|
    ensures Touched(planned, ref, properties[i]) <= AllTouched(planned, ref, properties, k)
  {
    if i < k - 1 {
      TouchedAll(planned, ref, properties, k - 1, i);
    }
  }

  lemma {:induction false} RewriteProperties(plan: Plan, baseIds: Ids, before: map<Id, Node>, s: Survival, done: set<Entity>,
                                             ref: Ref, properties: seq<Property>, k: nat)
    requires ValidPlan(plan) && HoldsBase(plan, baseIds, before)
    requires Rewriting(plan, baseIds, before, s.nodes, done, s.retained, s.objectIDs)
    requires ref in plan.objects && plan.objects[ref].baseRef.Some? && plan.objects[ref].value.DefinitionValue?
    requires plan.objects[ref].baseRef.value in plan.base.records
    requires properties == plan.objects[ref].value.definition.properties && k <= |properties|
    ensures var t := WriteProperties(plan.base.records[plan.objects[ref].baseRef.value], plan.objects[ref], properties, k, s);
            Rewriting(plan, baseIds, before, t.nodes, done + AllTouched(plan.objects[ref], ref, properties, k), t.retained, t.objectIDs)
  {
    if k == 0 {
      assert done + {} == done;
    } else {
      RewriteProperties(plan, baseIds, before, s, done, ref, properties, k - 1);
      var t := WriteProperties(plan.base.records[plan.objects[ref].baseRef.value], plan.objects[ref], properties, k - 1, s);
      var so := done + AllTouched(plan.objects[ref], ref, properties, k - 1);
      assert done + AllTouched(plan.objects[ref], ref, properties, k) == so + Touched(plan.objects[ref], ref, properties[k - 1]);
      if BaseName(plan.objects[ref], properties[k - 1].name) != "" {
        RewriteProperty(plan, baseIds, before, t, so, ref, properties[k - 1]);
      } else {
        assert so + {} == so;
      }
    }
  }

  lemma RewriteHead(plan: Plan, baseIds: Ids, before: map<Id, Node>, s: Survival, done: set<Entity>, ref: Ref)
    requires ValidPlan(plan) && HoldsBase(plan, baseIds, before)
    requires Rewriting(plan, baseIds, before, s.nodes, done, s.retained, s.objectIDs)
    requires ref in plan.objects && plan.objects[ref].baseRef.Some?
    ensures plan.objects[ref].baseRef.value in plan.base.records
    ensures var t := WriteHead(plan.base.records[plan.objects[ref].baseRef.value], ref, plan.objects[ref].value, s);
            Rewriting(plan, baseIds, before, t.nodes, done + {Obj(ref)}, t.retained, t.objectIDs)
  {
    var e := Obj(ref);
    assert Kept(plan, e);
    SameCategory(plan, before, baseIds, e);
    assert Planned(plan)[ref] == plan.objects[ref].value && RefOf(Planned(plan)[ref]) == ref;
    RewriteMore(plan, baseIds, before, s.nodes, done, s.retained, s.objectIDs, e, KeptId(plan, baseIds, e));
  }

  // Every surviving entity of the object is among the rewritten ones.
  ghost predicate Handled(plan: Plan, ref: Ref, done: set<Entity>) {
    forall e {:trigger Kept(plan, e)} :: Kept(plan, e) && e.ref == ref ==> e in done
  }

  lemma RewriteObject(plan: Plan, baseIds: Ids, before: map<Id, Node>, s: Survival, done: set<Entity>, ref: Ref)
      returns (after: set<Entity>)
    requires ValidPlan(plan) && HoldsBase(plan, baseIds, before)
    requires Rewriting(plan, baseIds, before, s.nodes, done, s.retained, s.objectIDs)
    ensures var t := WriteObject(plan, ref, s); Rewriting(plan, baseIds, before, t.nodes, after, t.retained, t.objectIDs)
    ensures done <= after && Handled(plan, ref, after)
  {
    if ref !in plan.objects || plan.objects[ref].baseRef.None? {
      after := done;
    } else {
      RewriteHead(plan, baseIds, before, s, done, ref);
      var planned := plan.objects[ref];
      var record := plan.base.records[planned.baseRef.value];
      after := done + {Obj(ref)};
      if planned.value.DefinitionValue? {
        var properties := planned.value.definition.properties;
        RewriteProperties(plan, baseIds, before, WriteHead(record, ref, planned.value, s), after, ref, properties, |properties|);
        after := after + AllTouched(planned, ref, properties, |properties|);
      }
      forall e | Kept(plan, e) && e.ref == ref ensures e in after {
        if e.Prop? {
          var properties := planned.value.definition.properties;
          var i :| 0 <= i < |properties| && properties[i].name == e.name;
          TouchedAll(planned, ref, properties, |properties|, i);
        }
      }
    }
  }

  lemma {:induction false} RewriteObjects(plan: Plan, baseIds: Ids, before: map<Id, Node>, refs: seq<Ref>, k: nat)
      returns (done: set<Entity>)
    requires ValidPlan(plan) && HoldsBase(plan, baseIds, before) && k <= |refs|
    ensures var t := WriteObjects(plan, refs, k, Survival(before, {}, map[]));
            Rewriting(plan, baseIds, before, t.nodes, done, t.retained, t.objectIDs)
    ensures forall i {:trigger Handled(plan, refs[i], done)} :: 0 <= i < k ==> Handled(plan, refs[i], done)
  {
    if k == 0 {
      done := {};
    } else {
      var earlier := RewriteObjects(plan, baseIds, before, refs, k - 1);
      done := RewriteObject(plan, baseIds, before, WriteObjects(plan, refs, k - 1, Survival(before, {}, map[])), earlier, refs[k - 1]);
      forall i | 0 <= i < k ensures Handled(plan, refs[i], done) {
        assert i < k - 1 ==> Handled(plan, refs[i], earlier);
      }
    }
  }

  // After the first loop exactly the surviving entities are rewritten and retained.
  lemma SurvivorsWritten(plan: Plan, baseIds: Ids, before: map<Id, Node>, refs: seq<Ref>) returns (kept: set<Entity>)
    requires ValidPlan(plan) && HoldsBase(plan, baseIds, before) && Lists(refs, plan.objects)
    ensures var t := WriteObjects(plan, refs, |refs|, Survival(before, {}, map[]));
            && Survivors(plan, baseIds, t.nodes, kept, t.retained)
            && t.nodes.Keys == before.Keys
            && (forall r :: r in t.objectIDs <==> Kept(plan, Obj(r)))
            && (forall r :: r in t.objectIDs ==> Claim(plan, Obj(r)).value in baseIds && t.objectIDs[r] == KeptId(plan, baseIds, Obj(r)))
  {
    kept := RewriteObjects(plan, baseIds, before, refs, |refs|);
    var t := WriteObjects(plan, refs, |refs|, Survival(before, {}, map[]));
    forall e | Kept(plan, e) ensures e in kept {
      assert e.ref in refs;
      var i :| 0 <= i < |refs| && refs[i] == e.ref;
      assert Handled(plan, refs[i], kept);
    }
    forall e | e in kept ensures Kept(plan, e) {
      assert Updated(t.nodes, plan, baseIds, e);
    }
  }

  lemma PlanContinuous(plan: Plan, baseIds: Ids, before: map<Id, Node>, ref: Ref)
    requires ValidPlan(plan) && HoldsBase(plan, baseIds, before)
    ensures Continuous(plan, ref)
  {
    if ref in plan.objects && plan.objects[ref].baseRef.Some? && plan.objects[ref].value.DefinitionValue? {
      var properties := plan.objects[ref].value.definition.properties;
      forall i | 0 <= i < |properties| && BaseName(plan.objects[ref], properties[i].name) != ""
        ensures HasSource(plan.base.records[plan.objects[ref].baseRef.value], plan.objects[ref], properties[i])
      {
        SourceOf(plan, baseIds, before, ref, properties[i]);
      }
    }
  }

  // ----- removals

  ghost predicate IsBaseId(base: Snapshot, id: Id) {
    exists r :: r in base.records && (base.records[r].id == id || IsPropertyId(base.records[r], id))
  }

  ghost predicate IsPropertyId(record: Record, id: Id) {
    record.DefinitionRecord? && exists name :: name in record.propertyIds && record.propertyIds[name] == id
  }

  method CollectRemovals(base: Snapshot, retained: set<Id>) returns (removals: set<Id>)
    ensures forall id {:trigger IsBaseId(base, id)} :: id in removals <==> id !in retained && IsBaseId(base, id)
  {
    removals := {};
    var todo := base.records.Keys;
    while todo != {}
      invariant todo <= base.records.Keys
      invariant forall id :: id in removals ==> id !in retained && IsBaseId(base, id)
      invariant forall r, id :: (r in base.records && r !in todo && id !in retained
                                 && (base.records[r].id == id || IsPropertyId(base.records[r], id))) ==> id in removals
      decreases |todo|
    {
      var r :| r in todo;
      todo := todo - {r};
      var record := base.records[r];
      if record.DefinitionRecord? {
        removals := removals + (set name | name in record.propertyIds && record.propertyIds[name] !in retained :: record.propertyIds[name]);
      }
      if record.id !in retained {
        removals := removals + {record.id};
      }
    }
  }

  method RemoveNodes(g: InternalGraph, removals: set<Id>)
    requires g.Valid()
    modifies g`nodes, g`edges
    ensures g.Valid()
    ensures g.nodes == old(g.nodes) - removals
    ensures g.edges == map i | i in old(g.edges) && old(g.edges)[i].start !in removals && old(g.edges)[i].end !in removals :: old(g.edges)[i]
  {
    var todo := removals;
    while todo != {}
      invariant todo <= removals && g.Valid()
      invariant g.nodes == old(g.nodes) - (removals - todo)
      invariant g.edges == map i | i in old(g.edges) && old(g.edges)[i].start !in removals - todo
                                   && old(g.edges)[i].end !in removals - todo :: old(g.edges)[i]
      decreases |todo|
    {
      var id :| id in todo;
      todo := todo - {id};
      g.DetachDelete(id);
    }
  }

  // In a graph that holds the base, removing what is not retained leaves what is.
  lemma RemovalRetains(plan: Plan, baseIds: Ids, before: map<Id, Node>, retained: set<Id>, removals: set<Id>, id: Id)
    requires HoldsBase(plan, baseIds, before) && id in before
    requires forall k {:trigger IsBaseId(plan.base, k)} :: k in removals <==> k !in retained && IsBaseId(plan.base, k)
    ensures id in removals <==> id !in retained
  {
    assert Names(baseIds, id);
    var e :| e in baseIds && baseIds[e] == id;
    assert IsBaseId(plan.base, id);
  }

  // ----- creating what is new

  // What syncInternalGraph writes for an object.
  function ObjectNode(ref: Ref, value: Value): Node {
    match value
    case DomainValue(d) => Node(DomainNode, "", d.name, d.title, d.description)
    case DefinitionValue(d) => Node(DefinitionBinding, KindText(d.kind), d.name, d.title, d.description)
  }

  // The graph while new nodes are added: objects and Properties present are as planned, and the
  // includes edges are those left after the removals.
  ghost predicate Growing(g: InternalGraph, objects: Objects, ids: Ids, left: map<Id, Edge>, mark: Id)
    reads g
  {
    && g.Valid()
    && NodesPartly(g.nodes, objects, ids) && EdgesPartly(g.edges, objects, ids)
    && (forall i :: i in left ==> i in g.edges && g.edges[i] == left[i])
    && (forall i :: i in g.edges ==> i in left || (i >= mark && g.edges[i].kind == PropertyOf)) && mark <= g.nextId
  }

  lemma PresentIds(nodes: map<Id, Node>, objects: Objects, ids: Ids, e: Entity)
    requires NodesPartly(nodes, objects, ids) && e in ids
    ensures ids[e] in nodes && HasEntity(objects, e)
  {
    assert NodeHolds(nodes, objects, ids, e);
  }

  // The source's identity table and the ghost one agree on objects.
  ghost predicate Tracks(objectIDs: map<Ref, Id>, ids: Ids) {
    && (forall r {:trigger objectIDs[r]} {:trigger Obj(r)} :: r in objectIDs <==> Obj(r) in ids)
    && (forall r {:trigger objectIDs[r]} :: r in objectIDs ==> objectIDs[r] == ids[Obj(r)])
  }

  method CreateObject(g: InternalGraph, ref: Ref, value: Value, ghost objects: Objects, ghost ids: Ids, ghost left: map<Id, Edge>, ghost mark: Id)
      returns (id: Id)
    requires Growing(g, objects, ids, left, mark)
    requires ref in objects && objects[ref] == value && Obj(ref) !in ids
    modifies g`nodes, g`nextId
    ensures Growing(g, objects, ids[Obj(ref) := id], left, mark)
    ensures id == old(g.nextId) && g.nextId == id + 1
  {
    EdgesWithObject(g.edges, objects, ids, ref, g.nextId);
    AddNode(g.nodes, objects, ids, Obj(ref), g.nextId);
    id := g.CreateNode(ObjectNode(ref, value));
  }

  // Whatever is new in grown has an identity from mark on.
  ghost predicate Fresh(ids: Ids, grown: Ids, mark: Id) {
    && Extends(ids, grown)
    && forall e {:trigger grown[e]} :: e in grown && e !in ids ==> grown[e] >= mark
  }

  ghost predicate SameProperties(ids: Ids, grown: Ids) {
    forall r, name {:trigger Prop(r, name)} :: Prop(r, name) in grown <==> Prop(r, name) in ids
  }

  // The objects still to be created, from position k on.
  ghost predicate ToCreate(plan: Plan, refs: seq<Ref>, k: nat, created: map<Ref, Id>) {
    && (forall i {:trigger refs[i]} :: 0 <= i < |refs| ==> refs[i] in plan.objects)
    && (forall i {:trigger refs[i]} :: 0 <= i < k && i < |refs| ==> refs[i] in created)
    && (forall i {:trigger refs[i]} :: k <= i < |refs| && plan.objects[refs[i]].baseRef.None? ==> refs[i] !in created)
  }

  lemma CreateNext(plan: Plan, refs: seq<Ref>, k: nat, created: map<Ref, Id>, id: Id)
    requires Distinct(refs) && k < |refs| && ToCreate(plan, refs, k, created)
    ensures plan.objects[refs[k]].baseRef.None? ==> ToCreate(plan, refs, k + 1, created[refs[k] := id])
    ensures refs[k] in created ==> ToCreate(plan, refs, k + 1, created)
  {
  }

  method CreateObjects(g: InternalGraph, plan: Plan, refs: seq<Ref>, objectIDs: map<Ref, Id>, ghost ids: Ids, ghost left: map<Id, Edge>, ghost mark: Id)
      returns (created: map<Ref, Id>, ghost grown: Ids)
    requires Growing(g, Planned(plan), ids, left, mark) && Distinct(refs) && Tracks(objectIDs, ids)
    requires ToCreate(plan, refs, 0, objectIDs)
    requires forall r :: r in plan.objects && plan.objects[r].baseRef.Some? ==> r in objectIDs
    modifies g`nodes, g`nextId
    ensures Growing(g, Planned(plan), grown, left, mark) && Tracks(created, grown)
    ensures Fresh(ids, grown, old(g.nextId)) && SameProperties(ids, grown) && old(g.nextId) <= g.nextId
    ensures forall r :: r in refs ==> r in created
  {
    created, grown := objectIDs, ids;
    var k := 0;
    while k < |refs|
      invariant 0 <= k <= |refs|
      invariant Growing(g, Planned(plan), grown, left, mark) && Tracks(created, grown)
      invariant Fresh(ids, grown, old(g.nextId)) && SameProperties(ids, grown) && old(g.nextId) <= g.nextId
      invariant ToCreate(plan, refs, k, created) && objectIDs.Keys <= created.Keys
    {
      var ref := refs[k];
      if plan.objects[ref].baseRef.None? {
        var id := CreateObject(g, ref, plan.objects[ref].value, Planned(plan), grown, left, mark);
        CreateNext(plan, refs, k, created, id);
        created := created[ref := id];
        grown := grown[Obj(ref) := id];
      } else {
        CreateNext(plan, refs, k, created, 0);
      }
      k := k + 1;
    }
  }

  // ----- creating Properties

  method CreateProperty(g: InternalGraph, ref: Ref, property: Property, owner: Id, ghost objects: Objects, ghost ids: Ids, ghost left: map<Id, Edge>, ghost mark: Id)
      returns (r: Result<Id>)
    requires Growing(g, objects, ids, left, mark)
    requires HasProperty(objects, ref, property.name) && Prop(ref, property.name) !in ids
    requires FindProperty(objects[ref].definition.properties, property.name) == Some(property)
    requires Obj(ref) in ids && owner == ids[Obj(ref)]
    modifies g`nodes, g`edges, g`nextId
    ensures r.Success? && Growing(g, objects, ids[Prop(ref, property.name) := r.value], left, mark)
    ensures r.value == old(g.nextId) && old(g.nextId) <= g.nextId
  {
    PresentIds(g.nodes, objects, ids, Obj(ref));
    AddNode(g.nodes, objects, ids, Prop(ref, property.name), g.nextId);
    EdgesWithProperty(g.edges, objects, ids, ref, property.name, g.nextId, g.nextId + 1);
    if owner !in g.nodes {
      return Failure(Consistency);
    }
    var id := g.CreateNode(Node(PropertyBinding, "", property.name, property.title, property.description));
    var edge := g.CreateEdge(PropertyOf, id, owner);
    return Success(id);
  }

  // The Properties among the first k that are new, or were there before.
  ghost predicate PropertiesUpTo(planned: PlannedObject, ref: Ref, properties: seq<Property>, k: nat, ids: Ids) {
    && (forall i {:trigger properties[i]} :: 0 <= i < k && i < |properties| ==> Prop(ref, properties[i].name) in ids)
    && (forall i {:trigger properties[i]} :: k <= i < |properties| ==>
         (Prop(ref, properties[i].name) in ids <==> BaseName(planned, properties[i].name) != ""))
  }

  method CreateProperties(g: InternalGraph, plan: Plan, ref: Ref, owner: Id, ghost ids: Ids, ghost left: map<Id, Edge>, ghost mark: Id)
      returns (r: Result<()>, ghost grown: Ids)
    requires Growing(g, Planned(plan), ids, left, mark)
    requires ref in plan.objects && plan.objects[ref].value.DefinitionValue?
    requires DistinctProperties(plan.objects[ref].value.definition.properties)
    requires Obj(ref) in ids && owner == ids[Obj(ref)]
    requires PropertiesUpTo(plan.objects[ref], ref, plan.objects[ref].value.definition.properties, 0, ids)
    modifies g`nodes, g`edges, g`nextId
    ensures r.Success? && Growing(g, Planned(plan), grown, left, mark)
    ensures Fresh(ids, grown, old(g.nextId)) && old(g.nextId) <= g.nextId
    ensures forall e {:trigger e in grown} :: e in grown && e !in ids ==> e.Prop? && e.ref == ref
    ensures PropertiesUpTo(plan.objects[ref], ref, plan.objects[ref].value.definition.properties,
                           |plan.objects[ref].value.definition.properties|, grown)
  {
    grown := ids;
    var planned := plan.objects[ref];
    var properties := planned.value.definition.properties;
    var i := 0;
    while i < |properties|
      invariant 0 <= i <= |properties|
      invariant Growing(g, Planned(plan), grown, left, mark)
      invariant Fresh(ids, grown, old(g.nextId)) && old(g.nextId) <= g.nextId
      invariant forall e {:trigger e in grown} :: e in grown && e !in ids ==> e.Prop? && e.ref == ref
      invariant PropertiesUpTo(planned, ref, properties, i, grown)
    {
      if BaseName(planned, properties[i].name) == "" {
        FoundAt(properties, i);
        var created := CreateProperty(g, ref, properties[i], owner, Planned(plan), grown, left, mark);
        if created.Failure? {
          return Failure(Consistency), grown;
        }
        grown := grown[Prop(ref, properties[i].name) := created.value];
      }
      i := i + 1;
    }
    return Success(()), grown;
  }

  // The planned entities of one object.
  ghost predicate Finished(objects: Objects, ids: Ids, r: Ref) {
    && Obj(r) in ids
    && forall name {:trigger Prop(r, name)} :: HasProperty(objects, r, name) ==> Prop(r, name) in ids
  }

  // Which Properties the removals left behind.
  ghost predicate Leftover(plan: Plan, ids: Ids, r: Ref) {
    forall name {:trigger Prop(r, name)} :: HasProperty(Planned(plan), r, name) ==>
      (Prop(r, name) in ids <==> BaseName(plan.objects[r], name) != "")
  }

  lemma FinishedMore(objects: Objects, ids: Ids, grown: Ids, r: Ref)
    requires Finished(objects, ids, r) && Extends(ids, grown)
    ensures Finished(objects, grown, r)
  {
  }

  lemma LeftoverMore(plan: Plan, ids: Ids, grown: Ids, ref: Ref, r: Ref)
    requires Leftover(plan, ids, r) && Extends(ids, grown) && r != ref
    requires forall e {:trigger e in grown} :: e in grown && e !in ids ==> e.Prop? && e.ref == ref
    ensures Leftover(plan, grown, r)
  {
  }

  lemma PropertiesFinished(plan: Plan, ref: Ref, ids: Ids)
    requires ref in plan.objects && Obj(ref) in ids
    requires plan.objects[ref].value.DefinitionValue? ==>
               PropertiesUpTo(plan.objects[ref], ref, plan.objects[ref].value.definition.properties,
                              |plan.objects[ref].value.definition.properties|, ids)
    ensures Finished(Planned(plan), ids, ref)
  {
    forall name | HasProperty(Planned(plan), ref, name) ensures Prop(ref, name) in ids {
      var properties := plan.objects[ref].value.definition.properties;
      var i :| 0 <= i < |properties| && properties[i].name == name;
    }
  }

  lemma LeftoverListed(plan: Plan, ref: Ref, ids: Ids)
    requires ref in plan.objects && plan.objects[ref].value.DefinitionValue? && Leftover(plan, ids, ref)
    ensures PropertiesUpTo(plan.objects[ref], ref, plan.objects[ref].value.definition.properties, 0, ids)
  {
    var properties := plan.objects[ref].value.definition.properties;
    forall i | 0 <= i < |properties|
      ensures Prop(ref, properties[i].name) in ids <==> BaseName(plan.objects[ref], properties[i].name) != ""
    {
      assert HasProperty(Planned(plan), ref, properties[i].name);
    }
  }

  // The state of the third loop at position k.
  ghost predicate PropertiesDone(plan: Plan, refs: seq<Ref>, k: nat, ids: Ids) {
    && (forall i {:trigger refs[i]} :: 0 <= i < k && i < |refs| ==> Finished(Planned(plan), ids, refs[i]))
    && (forall i {:trigger refs[i]} :: k <= i < |refs| ==> Leftover(plan, ids, refs[i]))
  }

  lemma PropertiesDoneMore(plan: Plan, refs: seq<Ref>, k: nat, ids: Ids, grown: Ids)
    requires Distinct(refs) && k < |refs| && PropertiesDone(plan, refs, k, ids) && Extends(ids, grown)
    requires forall e {:trigger e in grown} :: e in grown && e !in ids ==> e.Prop? && e.ref == refs[k]
    requires Finished(Planned(plan), grown, refs[k])
    ensures PropertiesDone(plan, refs, k + 1, grown)
  {
    forall i | 0 <= i < k ensures Finished(Planned(plan), grown, refs[i]) {
      FinishedMore(Planned(plan), ids, grown, refs[i]);
    }
    forall i | k < i < |refs| ensures Leftover(plan, grown, refs[i]) {
      LeftoverMore(plan, ids, grown, refs[k], refs[i]);
    }
  }

  // The third loop: Properties without a base Property get a node and an owner edge.
  method CreateAllProperties(g: InternalGraph, plan: Plan, refs: seq<Ref>, objectIDs: map<Ref, Id>, ghost ids: Ids, ghost left: map<Id, Edge>, ghost mark: Id)
      returns (r: Result<()>, ghost grown: Ids)
    requires Growing(g, Planned(plan), ids, left, mark) && Tracks(objectIDs, ids) && WellFormed(Planned(plan))
    requires Distinct(refs) && forall q :: q in refs ==> q in plan.objects && q in objectIDs
    requires PropertiesDone(plan, refs, 0, ids)
    modifies g`nodes, g`edges, g`nextId
    ensures r.Success? && Growing(g, Planned(plan), grown, left, mark) && Tracks(objectIDs, grown)
    ensures Fresh(ids, grown, old(g.nextId)) && old(g.nextId) <= g.nextId
    ensures PropertiesDone(plan, refs, |refs|, grown)
  {
    grown := ids;
    var k := 0;
    while k < |refs|
      invariant 0 <= k <= |refs|
      invariant Growing(g, Planned(plan), grown, left, mark) && Tracks(objectIDs, grown)
      invariant Fresh(ids, grown, old(g.nextId)) && old(g.nextId) <= g.nextId
      invariant PropertiesDone(plan, refs, k, grown)
    {
      var ref := refs[k];
      assert ref in refs;
      ghost var earlier := grown;
      if plan.objects[ref].value.DefinitionValue? {
        LeftoverListed(plan, ref, grown);
        assert WellFormedObject(Planned(plan), Planned(plan)[ref]);
        var created, more := CreateProperties(g, plan, ref, objectIDs[ref], grown, left, mark);
        if created.Failure? {
          return Failure(Consistency), grown;
        }
        grown := more;
      }
      PropertiesFinished(plan, ref, grown);
      PropertiesDoneMore(plan, refs, k, earlier, grown);
      k := k + 1;
    }
    return Success(()), grown;
  }

  // ----- Domain membership

  predicate IncludesFrom(edge: Edge, d: Id) {
    edge.kind == Includes && edge.start == d
  }

  // The base edges the loop below reads say what the graph still says about this Domain.
  ghost predicate Agrees(edges: map<Id, Edge>, relationships: map<Id, Edge>, d: Id, targets: set<Id>) {
    && NoTwins(edges) && NoTwins(relationships)
    && (forall i :: i in edges && IncludesFrom(edges[i], d) ==> i in relationships && relationships[i] == edges[i])
    && (forall i :: i in relationships && IncludesFrom(relationships[i], d) && relationships[i].end in targets ==>
         i in edges && edges[i] == relationships[i])
    && (forall i :: i in relationships && i in edges ==> relationships[i] == edges[i])
  }

  // Whose membership edges are now exactly these targets, with unchanged members keeping their edge.
  ghost predicate Synced(before: map<Id, Edge>, after: map<Id, Edge>, mark: Id, d: Id, targets: set<Id>) {
    && NoTwins(after)
    && (forall i :: i in before && !IncludesFrom(before[i], d) ==> i in after && after[i] == before[i])
    && (forall i :: i in before && IncludesFrom(before[i], d) ==> (i in after <==> before[i].end in targets))
    && (forall i :: i in before && i in after ==> after[i] == before[i])
    && (forall i :: i in after && i !in before ==> i >= mark && IncludesFrom(after[i], d) && after[i].end in targets)
    && (forall t {:trigger Edge(Includes, d, t)} :: t in targets ==> Carries(after, Edge(Includes, d, t)))
  }

  predicate Dropped(edge: Edge, d: Id, targets: set<Id>) {
    IncludesFrom(edge, d) && edge.end !in targets
  }

  // The edges left once those of seen that lead to dropped members are gone.
  function Surviving(edges: map<Id, Edge>, seen: map<Id, Edge>, d: Id, targets: set<Id>): map<Id, Edge> {
    map i | i in edges && !(i in seen && Dropped(seen[i], d, targets)) :: edges[i]
  }

  // The members none of these edges leads to.
  ghost function Missing(targets: set<Id>, seen: map<Id, Edge>, d: Id): set<Id> {
    set t | t in targets && !Carries(seen, Edge(Includes, d, t))
  }

  lemma MissingMore(targets: set<Id>, seen: map<Id, Edge>, d: Id, i: Id, edge: Edge)
    requires i !in seen
    ensures Missing(targets, seen[i := edge], d) == if IncludesFrom(edge, d) then Missing(targets, seen, d) - {edge.end} else Missing(targets, seen, d)
  {
    forall t: Id ensures Carries(seen[i := edge], Edge(Includes, d, t)) <==> Carries(seen, Edge(Includes, d, t)) || Edge(Includes, d, t) == edge {
      CarriesMore(seen, i, edge, Edge(Includes, d, t));
    }
  }

  lemma SurvivingMore(edges: map<Id, Edge>, seen: map<Id, Edge>, d: Id, targets: set<Id>, i: Id, edge: Edge)
    requires i !in seen
    ensures Surviving(edges, seen[i := edge], d, targets)
         == if Dropped(edge, d, targets) then Surviving(edges, seen, d, targets) - {i} else Surviving(edges, seen, d, targets)
  {
  }

  // No earlier edge led to the same member, so a member met is still to be created unless dropped.
  lemma StillMissing(relationships: map<Id, Edge>, seen: map<Id, Edge>, d: Id, targets: set<Id>, i: Id)
    requires NoTwins(relationships) && i in relationships && i !in seen && IncludesFrom(relationships[i], d)
    requires forall k :: k in seen ==> k in relationships && seen[k] == relationships[k]
    ensures relationships[i].end in Missing(targets, seen, d) <==> relationships[i].end in targets
  {
    var edge := Edge(Includes, d, relationships[i].end);
    assert edge == relationships[i];
    forall k | k in seen ensures seen[k] != edge {
      assert k != i && relationships[k] != relationships[i];
    }
  }

  lemma DropStep(edges: map<Id, Edge>, relationships: map<Id, Edge>, seen: map<Id, Edge>, d: Id, targets: set<Id>, i: Id)
    requires NoTwins(relationships) && i in relationships && i !in seen
    requires forall k :: k in seen ==> k in relationships && seen[k] == relationships[k]
    ensures var edge := relationships[i];
            var kept := !IncludesFrom(edge, d) || edge.end in Missing(targets, seen, d);
            && Surviving(edges, seen[i := edge], d, targets)
               == (if kept then Surviving(edges, seen, d, targets) else Surviving(edges, seen, d, targets) - {i})
            && Missing(targets, seen[i := edge], d)
               == (if IncludesFrom(edge, d) && kept then Missing(targets, seen, d) - {edge.end} else Missing(targets, seen, d))
  {
    MissingMore(targets, seen, d, i, relationships[i]);
    SurvivingMore(edges, seen, d, targets, i, relationships[i]);
    if IncludesFrom(relationships[i], d) {
      StillMissing(relationships, seen, d, targets, i);
    }
  }

  // The first loop: base edges to kept members stay, the others are deleted by identity.
  method DropMembers(g: InternalGraph, relationships: map<Id, Edge>, d: Id, targets: set<Id>) returns (toCreate: set<Id>)
    requires g.Valid() && NoTwins(relationships)
    modifies g`edges
    ensures g.Valid()
    ensures g.edges == Surviving(old(g.edges), relationships, d, targets)
    ensures toCreate == Missing(targets, relationships, d)
  {
    toCreate := targets;
    var todo := relationships.Keys;
    ghost var seen: map<Id, Edge> := map[];
    assert Missing(targets, seen, d) == targets;
    while todo != {}
      invariant todo <= relationships.Keys && seen.Keys == relationships.Keys - todo && g.Valid()
      invariant forall i :: i in seen ==> seen[i] == relationships[i]
      invariant g.edges == Surviving(old(g.edges), seen, d, targets)
      invariant toCreate == Missing(targets, seen, d)
      decreases |todo|
    {
      var i :| i in todo;
      todo := todo - {i};
      var edge := relationships[i];
      DropStep(old(g.edges), relationships, seen, d, targets, i);
      if IncludesFrom(edge, d) {
        if edge.end in toCreate {
          toCreate := toCreate - {edge.end};
        } else {
          g.DeleteEdge(i);
        }
      }
      seen := seen[i := edge];
    }
    assert seen == relationships;
  }

  // The second loop: members without an edge get one.
  method AddMembers(g: InternalGraph, d: Id, targetIDs: seq<Id>, toCreate: set<Id>) returns (r: Result<()>)
    requires g.Valid() && NoTwins(g.edges) && Distinct(targetIDs)
    requires d in g.nodes && forall t :: t in targetIDs ==> t in g.nodes
    requires forall t :: t in toCreate ==> !Carries(g.edges, Edge(Includes, d, t))
    modifies g`edges, g`nextId
    ensures r.Success? && g.Valid() && NoTwins(g.edges) && old(g.nextId) <= g.nextId
    ensures forall i :: i in old(g.edges) ==> i in g.edges && g.edges[i] == old(g.edges)[i]
    ensures forall i :: i in g.edges && i !in old(g.edges) ==>
              i >= old(g.nextId) && IncludesFrom(g.edges[i], d) && g.edges[i].end in targetIDs
    ensures forall t :: t in targetIDs && t in toCreate ==> Carries(g.edges, Edge(Includes, d, t))
  {
    var k := 0;
    while k < |targetIDs|
      invariant 0 <= k <= |targetIDs|
      invariant g.Valid() && NoTwins(g.edges) && old(g.nextId) <= g.nextId
      invariant forall i :: i in old(g.edges) ==> i in g.edges && g.edges[i] == old(g.edges)[i]
      invariant forall i :: i in g.edges && i !in old(g.edges) ==>
        i >= old(g.nextId) && IncludesFrom(g.edges[i], d) && g.edges[i].end in targetIDs
      invariant forall j {:trigger targetIDs[j]} :: 0 <= j < k && targetIDs[j] in toCreate ==> Carries(g.edges, Edge(Includes, d, targetIDs[j]))
      invariant forall j {:trigger targetIDs[j]} :: k <= j < |targetIDs| && targetIDs[j] in toCreate ==> !Carries(g.edges, Edge(Includes, d, targetIDs[j]))
    {
      var t := targetIDs[k];
      if t in toCreate {
        var edge := Edge(Includes, d, t);
        forall j | 0 <= j < |targetIDs|
          ensures Carries(g.edges[g.nextId := edge], Edge(Includes, d, targetIDs[j])) <==>
                  Carries(g.edges, Edge(Includes, d, targetIDs[j])) || j == k
        {
          CarriesMore(g.edges, g.nextId, edge, Edge(Includes, d, targetIDs[j]));
        }
        var created := g.CreateEdge(Includes, d, t);
        if created.Failure? {
          return Failure(Consistency);
        }
      }
      k := k + 1;
    }
    return Success(());
  }

  function Elements(s: seq<Id>): (r: set<Id>)
    ensures forall x :: x in r <==> x in s
  {
    set x | x in s
  }

  method SyncDomainMembership(g: InternalGraph, relationships: map<Id, Edge>, d: Id, targetIDs: seq<Id>) returns (r: Result<()>)
    requires g.Valid() && Distinct(targetIDs) && Agrees(g.edges, relationships, d, Elements(targetIDs))
    requires d in g.nodes && forall t :: t in targetIDs ==> t in g.nodes
    modifies g`edges, g`nextId
    ensures r.Success? && g.Valid() && old(g.nextId) <= g.nextId
    ensures Synced(old(g.edges), g.edges, old(g.nextId), d, Elements(targetIDs))
  {
    ghost var before := g.edges;
    var toCreate := DropMembers(g, relationships, d, Elements(targetIDs));
    ghost var middle := g.edges;
    DroppedRight(before, relationships, d, Elements(targetIDs));
    r := AddMembers(g, d, targetIDs, toCreate);
    forall t | t in targetIDs ensures Carries(g.edges, Edge(Includes, d, t)) {
      if t !in toCreate {
        assert Carries(middle, Edge(Includes, d, t));
        var i :| i in middle && middle[i] == Edge(Includes, d, t);
        assert g.edges[i] == Edge(Includes, d, t);
      }
    }
    AddedRight(before, middle, g.edges, old(g.nextId), d, Elements(targetIDs));
  }

  ghost predicate CutDown(before: map<Id, Edge>, middle: map<Id, Edge>, d: Id, targets: set<Id>) {
    && NoTwins(middle)
    && (forall i :: i in before && !IncludesFrom(before[i], d) ==> i in middle)
    && (forall i :: i in before && IncludesFrom(before[i], d) ==> (i in middle <==> before[i].end in targets))
    && (forall i :: i in middle ==> i in before && middle[i] == before[i])
  }

  lemma DroppedRight(before: map<Id, Edge>, relationships: map<Id, Edge>, d: Id, targets: set<Id>)
    requires Agrees(before, relationships, d, targets)
    ensures CutDown(before, Surviving(before, relationships, d, targets), d, targets)
    ensures forall t :: t in Missing(targets, relationships, d) ==> !Carries(Surviving(before, relationships, d, targets), Edge(Includes, d, t))
    ensures forall t :: t in targets && t !in Missing(targets, relationships, d) ==>
              Carries(Surviving(before, relationships, d, targets), Edge(Includes, d, t))
  {
    var middle := Surviving(before, relationships, d, targets);
    forall t | t in targets
      ensures Carries(middle, Edge(Includes, d, t)) <==> Carries(relationships, Edge(Includes, d, t))
    {
      if i :| i in middle && middle[i] == Edge(Includes, d, t) {
        assert IncludesFrom(before[i], d) && relationships[i] == Edge(Includes, d, t);
      }
      if i :| i in relationships && relationships[i] == Edge(Includes, d, t) {
        assert IncludesFrom(relationships[i], d);
        assert i in middle && middle[i] == Edge(Includes, d, t);
      }
    }
  }

  lemma AddedRight(before: map<Id, Edge>, middle: map<Id, Edge>, after: map<Id, Edge>, mark: Id, d: Id, targets: set<Id>)
    requires CutDown(before, middle, d, targets) && NoTwins(after) && forall i :: i in before ==> i < mark
    requires forall i :: i in middle ==> i in after && after[i] == middle[i]
    requires forall i :: i in after && i !in middle ==> i >= mark && IncludesFrom(after[i], d) && after[i].end in targets
    requires forall t :: t in targets ==> Carries(after, Edge(Includes, d, t))
    ensures Synced(before, after, mark, d, targets)
  {
  }

  // ----- the last loop

  // The Domain's membership edges are still those the removals left.
  ghost predicate Untouched(edges: map<Id, Edge>, left: map<Id, Edge>, d: Id) {
    && (forall i :: i in edges && IncludesFrom(edges[i], d) ==> i in left && left[i] == edges[i])
    && (forall i :: i in left && IncludesFrom(left[i], d) ==> i in edges && edges[i] == left[i])
  }

  // Edges that were there stay what they were, and what the plan still says stays there.
  ghost predicate KeepsIdentity(edges: map<Id, Edge>, left: map<Id, Edge>, objects: Objects, ids: Ids) {
    && (forall i :: i in left && i in edges ==> edges[i] == left[i])
    && (forall i :: i in left && left[i].kind == PropertyOf ==> i in edges)
    && (forall i {:trigger Explained(objects, ids, left[i])} :: i in left && Explained(objects, ids, left[i]) ==> i in edges)
  }

  lemma MembersFrame(before: map<Id, Edge>, after: map<Id, Edge>, mark: Id, objects: Objects, ids: Ids, r: Ref, d: Id, targets: set<Id>)
    requires Synced(before, after, mark, d, targets) && MembersHold(before, objects, ids, r)
    requires Obj(r) in ids && ids[Obj(r)] != d
    ensures MembersHold(after, objects, ids, r)
  {
    forall t | HasMember(objects, r, t) ensures LinkHolds(after, ids, Member(r, t)) {
      assert LinkHolds(before, ids, Member(r, t));
      var i :| i in before && before[i] == LinkEdge(Member(r, t), ids);
      assert !IncludesFrom(before[i], d);
      assert after[i] == LinkEdge(Member(r, t), ids);
    }
    forall i | i in after && after[i].kind == Includes && after[i].start == ids[Obj(r)]
      ensures exists t :: HasMember(objects, r, t) && Linked(Member(r, t), ids, after[i])
    {
      assert i in before && before[i] == after[i];
    }
  }

  lemma UntouchedFrame(before: map<Id, Edge>, after: map<Id, Edge>, mark: Id, left: map<Id, Edge>, other: Id, d: Id, targets: set<Id>)
    requires Synced(before, after, mark, d, targets) && Untouched(before, left, other) && other != d
    ensures Untouched(after, left, other)
  {
    forall i | i in after && IncludesFrom(after[i], other) ensures i in left && left[i] == after[i] {
      assert i in before && before[i] == after[i];
    }
    forall i | i in left && IncludesFrom(left[i], other) ensures i in after && after[i] == left[i] {
      assert !IncludesFrom(before[i], d);
    }
  }

  // The member Refs of a Domain, as identities.
  ghost predicate Resolves(objects: Objects, ids: Ids, r: Ref, targetIDs: seq<Id>) {
    && IsDomain(objects, r) && |targetIDs| == |objects[r].domain.includes|
    && forall i {:trigger targetIDs[i]} :: 0 <= i < |targetIDs| ==>
         && objects[r].domain.includes[i].To? && Obj(objects[r].domain.includes[i].ref) in ids
         && targetIDs[i] == ids[Obj(objects[r].domain.includes[i].ref)]
  }

  lemma ResolvedMembers(objects: Objects, ids: Ids, r: Ref, targetIDs: seq<Id>, t: Id)
    requires Resolves(objects, ids, r, targetIDs)
    ensures t in targetIDs <==> exists m :: HasMember(objects, r, m) && Obj(m) in ids && ids[Obj(m)] == t
  {
    var includes := objects[r].domain.includes;
    if t in targetIDs {
      var i :| 0 <= i < |targetIDs| && targetIDs[i] == t;
      assert To(includes[i].ref) == includes[i] && HasMember(objects, r, includes[i].ref);
    }
    if m :| HasMember(objects, r, m) && Obj(m) in ids && ids[Obj(m)] == t {
      var i :| 0 <= i < |includes| && includes[i] == To(m);
      assert targetIDs[i] == t;
    }
  }

  lemma SyncedMembersHold(before: map<Id, Edge>, after: map<Id, Edge>, mark: Id, objects: Objects, ids: Ids, r: Ref, targetIDs: seq<Id>)
    requires Obj(r) in ids && Injective(ids) && Resolves(objects, ids, r, targetIDs)
    requires forall m :: HasMember(objects, r, m) ==> Obj(m) in ids
    requires Synced(before, after, mark, ids[Obj(r)], Elements(targetIDs))
    ensures MembersHold(after, objects, ids, r)
  {
    var d := ids[Obj(r)];
    forall m | HasMember(objects, r, m) ensures LinkHolds(after, ids, Member(r, m)) {
      ResolvedMembers(objects, ids, r, targetIDs, ids[Obj(m)]);
      assert Edge(Includes, d, ids[Obj(m)]) == LinkEdge(Member(r, m), ids);
    }
    forall i | i in after && after[i].kind == Includes && after[i].start == d
      ensures exists t :: HasMember(objects, r, t) && Linked(Member(r, t), ids, after[i])
    {
      assert IncludesFrom(after[i], d) && after[i].end in targetIDs;
      ResolvedMembers(objects, ids, r, targetIDs, after[i].end);
      var m :| HasMember(objects, r, m) && Obj(m) in ids && ids[Obj(m)] == after[i].end;
      assert Linked(Member(r, m), ids, after[i]);
    }
  }

  lemma SyncedEdgesPartly(before: map<Id, Edge>, after: map<Id, Edge>, mark: Id, objects: Objects, ids: Ids, r: Ref, targetIDs: seq<Id>)
    requires EdgesPartly(before, objects, ids) && Obj(r) in ids && Resolves(objects, ids, r, targetIDs)
    requires Synced(before, after, mark, ids[Obj(r)], Elements(targetIDs))
    ensures EdgesPartly(after, objects, ids)
  {
    var d := ids[Obj(r)];
    forall i | i in after && after[i].kind == PropertyOf ensures OwnerExplained(objects, ids, after[i]) {
      assert i in before && OwnerExplained(objects, ids, before[i]);
    }
    forall i | i in after && after[i].kind == Includes ensures BetweenObjects(objects, ids, after[i]) {
      if i in before {
        assert BetweenObjects(objects, ids, before[i]);
      } else {
        ResolvedMembers(objects, ids, r, targetIDs, after[i].end);
        var m :| HasMember(objects, r, m) && Obj(m) in ids && ids[Obj(m)] == after[i].end;
        assert Linked(Member(r, m), ids, after[i]);
      }
    }
    forall q, name | Prop(q, name) in ids ensures LinkHolds(after, ids, Owns(q, name)) {
      assert LinkHolds(before, ids, Owns(q, name));
      var i :| i in before && before[i] == LinkEdge(Owns(q, name), ids);
      assert !IncludesFrom(before[i], d) && after[i] == before[i];
    }
  }

  lemma SyncedKeepsIdentity(before: map<Id, Edge>, after: map<Id, Edge>, mark: Id, left: map<Id, Edge>, objects: Objects, ids: Ids, r: Ref,
                            targetIDs: seq<Id>)
    requires KeepsIdentity(before, left, objects, ids)
    requires Obj(r) in ids && Injective(ids) && Resolves(objects, ids, r, targetIDs)
    requires Synced(before, after, mark, ids[Obj(r)], Elements(targetIDs)) && forall i :: i in left ==> i < mark
    ensures KeepsIdentity(after, left, objects, ids)
  {
    var d := ids[Obj(r)];
    forall i | i in left && left[i].kind == PropertyOf ensures i in after {
      assert !IncludesFrom(before[i], d);
    }
    forall i | i in left && Explained(objects, ids, left[i]) ensures i in after {
      assert i in before;
      if IncludesFrom(left[i], d) {
        var l :| HasLink(objects, l) && Linked(l, ids, left[i]);
        assert Obj(l.domain) == Obj(r);
        ResolvedMembers(objects, ids, r, targetIDs, left[i].end);
      }
    }
  }

  // ----- the state of the last loop

  ghost predicate MembersUpTo(objects: Objects, refs: seq<Ref>, k: nat, ids: Ids, edges: map<Id, Edge>, left: map<Id, Edge>) {
    && EdgesPartly(edges, objects, ids) && KeepsIdentity(edges, left, objects, ids)
    && (forall i {:trigger refs[i]} :: 0 <= i < |refs| ==> Obj(refs[i]) in ids)
    && (forall i {:trigger refs[i]} :: 0 <= i < k && i < |refs| && IsDomain(objects, refs[i]) ==> MembersHold(edges, objects, ids, refs[i]))
    && (forall i {:trigger refs[i]} :: k <= i < |refs| ==> Untouched(edges, left, ids[Obj(refs[i])]))
  }

  lemma MembersMore(objects: Objects, refs: seq<Ref>, k: nat, ids: Ids, before: map<Id, Edge>, after: map<Id, Edge>, left: map<Id, Edge>,
                    mark: Id, targetIDs: seq<Id>)
    requires Distinct(refs) && k < |refs| && Injective(ids) && MembersUpTo(objects, refs, k, ids, before, left)
    requires Resolves(objects, ids, refs[k], targetIDs) && forall m :: HasMember(objects, refs[k], m) ==> Obj(m) in ids
    requires Synced(before, after, mark, ids[Obj(refs[k])], Elements(targetIDs)) && forall i :: i in left ==> i < mark
    ensures MembersUpTo(objects, refs, k + 1, ids, after, left)
  {
    var d, targets := ids[Obj(refs[k])], Elements(targetIDs);
    SyncedEdgesPartly(before, after, mark, objects, ids, refs[k], targetIDs);
    SyncedKeepsIdentity(before, after, mark, left, objects, ids, refs[k], targetIDs);
    SyncedMembersHold(before, after, mark, objects, ids, refs[k], targetIDs);
    forall i | 0 <= i < |refs| && i != k
      ensures i < k && IsDomain(objects, refs[i]) ==> MembersHold(after, objects, ids, refs[i])
      ensures i > k ==> Untouched(after, left, ids[Obj(refs[i])])
    {
      assert Obj(refs[i]) != Obj(refs[k]);
      if i < k && IsDomain(objects, refs[i]) {
        MembersFrame(before, after, mark, objects, ids, refs[i], d, targets);
      }
      if i > k {
        UntouchedFrame(before, after, mark, left, ids[Obj(refs[i])], d, targets);
      }
    }
  }

  // The base relationships, seen from the nodes that are left: what mark separates old from new.
  ghost predicate LeftOf(relationships: map<Id, Edge>, left: map<Id, Edge>, retained: set<Id>, ids: Ids, mark: Id) {
    && left == RestrictEdges(relationships, retained) && NoTwins(relationships)
    && (forall i :: i in relationships ==> i < mark && relationships[i].start < mark && relationships[i].end < mark)
    && (forall e {:trigger ids[e]} :: e in ids ==> ids[e] in retained || ids[e] >= mark)
  }

  // Edges created since are new, so an identity of the base still present is a base edge.
  ghost predicate OldEdgesKept(edges: map<Id, Edge>, left: map<Id, Edge>, mark: Id) {
    forall i :: i in edges && i < mark ==> i in left && left[i] == edges[i]
  }

  lemma AgreesHere(relationships: map<Id, Edge>, edges: map<Id, Edge>, left: map<Id, Edge>, retained: set<Id>, ids: Ids, mark: Id,
                   objects: Objects, r: Ref, targetIDs: seq<Id>)
    requires LeftOf(relationships, left, retained, ids, mark) && NoTwins(edges) && OldEdgesKept(edges, left, mark)
    requires Obj(r) in ids && Untouched(edges, left, ids[Obj(r)]) && Resolves(objects, ids, r, targetIDs)
    ensures Agrees(edges, relationships, ids[Obj(r)], Elements(targetIDs))
  {
    var d, targets := ids[Obj(r)], Elements(targetIDs);
    forall i | i in relationships && IncludesFrom(relationships[i], d) && relationships[i].end in targets
      ensures i in edges && edges[i] == relationships[i]
    {
      ResolvedMembers(objects, ids, r, targetIDs, relationships[i].end);
      assert i in left && IncludesFrom(left[i], d);
    }
  }

  lemma OldEdgesStay(before: map<Id, Edge>, after: map<Id, Edge>, left: map<Id, Edge>, mark: Id, at: Id, d: Id, targets: set<Id>)
    requires OldEdgesKept(before, left, mark) && Synced(before, after, at, d, targets) && mark <= at
    ensures OldEdgesKept(after, left, mark)
  {
  }

  method ResolveMembers(plan: Plan, ref: Ref, objectIDs: map<Ref, Id>, ghost ids: Ids) returns (r: Result<seq<Id>>)
    requires Tracks(objectIDs, ids) && IsDomain(Planned(plan), ref) && WellFormedDomain(Planned(plan), Planned(plan)[ref].domain)
    requires forall m :: m in plan.objects ==> m in objectIDs
    ensures r.Success? && Resolves(Planned(plan), ids, ref, r.value)
  {
    var includes := plan.objects[ref].value.domain.includes;
    var targetIDs: seq<Id> := [];
    var i := 0;
    while i < |includes|
      invariant 0 <= i <= |includes| && |targetIDs| == i
      invariant forall j {:trigger targetIDs[j]} :: 0 <= j < i ==>
        includes[j].To? && Obj(includes[j].ref) in ids && targetIDs[j] == ids[Obj(includes[j].ref)]
    {
      assert includes[i] in Planned(plan)[ref].domain.includes;
      if includes[i].New? || includes[i].ref !in objectIDs {
        return Failure(Consistency);
      }
      targetIDs := targetIDs + [objectIDs[includes[i].ref]];
      i := i + 1;
    }
    return Success(targetIDs);
  }

  lemma ResolvedDistinct(objects: Objects, ids: Ids, r: Ref, targetIDs: seq<Id>)
    requires Injective(ids) && Resolves(objects, ids, r, targetIDs) && WellFormedDomain(objects, objects[r].domain)
    ensures Distinct(targetIDs)
  {
    forall i, j | 0 <= i < j < |targetIDs| ensures targetIDs[i] != targetIDs[j] {
      assert objects[r].domain.includes[i] != objects[r].domain.includes[j];
    }
  }

  method SyncMembership(g: InternalGraph, plan: Plan, refs: seq<Ref>, objectIDs: map<Ref, Id>, ghost ids: Ids, ghost left: map<Id, Edge>,
                        ghost retained: set<Id>, ghost mark: Id)
      returns (r: Result<()>)
    requires g.Valid() && NodesPartly(g.nodes, Planned(plan), ids) && WellFormed(Planned(plan)) && Tracks(objectIDs, ids)
    requires Distinct(refs) && (forall q :: q in refs ==> q in plan.objects) && forall q :: q in plan.objects ==> q in objectIDs
    requires MembersUpTo(Planned(plan), refs, 0, ids, g.edges, left)
    requires LeftOf(plan.base.relationships, left, retained, ids, mark) && OldEdgesKept(g.edges, left, mark) && mark <= g.nextId
    modifies g`edges, g`nextId
    ensures r.Success? && g.Valid()
    ensures MembersUpTo(Planned(plan), refs, |refs|, ids, g.edges, left) && OldEdgesKept(g.edges, left, mark)
  {
    var k := 0;
    while k < |refs|
      invariant 0 <= k <= |refs| && g.Valid() && mark <= g.nextId
      invariant MembersUpTo(Planned(plan), refs, k, ids, g.edges, left) && OldEdgesKept(g.edges, left, mark)
    {
      var ref := refs[k];
      assert ref in refs;
      if plan.objects[ref].value.DomainValue? {
        assert WellFormedObject(Planned(plan), Planned(plan)[ref]);
        ghost var before, at := g.edges, g.nextId;
        var targets := ResolveMembers(plan, ref, objectIDs, ids);
        if targets.Failure? {
          return Failure(Consistency);
        }
        PrepareSync(g, plan, ref, objectIDs, ids, left, retained, mark, targets.value);
        var synced := SyncDomainMembership(g, plan.base.relationships, objectIDs[ref], targets.value);
        if synced.Failure? {
          return Failure(Consistency);
        }
        MembersMore(Planned(plan), refs, k, ids, before, g.edges, left, at, targets.value);
        OldEdgesStay(before, g.edges, left, mark, at, objectIDs[ref], Elements(targets.value));
      } else {
        SkipMembers(Planned(plan), refs, k, ids, g.edges, left);
      }
      k := k + 1;
    }
    return Success(());
  }

  lemma SkipMembers(objects: Objects, refs: seq<Ref>, k: nat, ids: Ids, edges: map<Id, Edge>, left: map<Id, Edge>)
    requires k < |refs| && MembersUpTo(objects, refs, k, ids, edges, left) && !IsDomain(objects, refs[k])
    ensures MembersUpTo(objects, refs, k + 1, ids, edges, left)
  {
  }

  lemma PrepareSync(g: InternalGraph, plan: Plan, ref: Ref, objectIDs: map<Ref, Id>, ids: Ids, left: map<Id, Edge>,
                    retained: set<Id>, mark: Id, targetIDs: seq<Id>)
    requires NodesPartly(g.nodes, Planned(plan), ids) && Tracks(objectIDs, ids) && ref in objectIDs
    requires Resolves(Planned(plan), ids, ref, targetIDs) && WellFormedDomain(Planned(plan), Planned(plan)[ref].domain)
    requires forall m :: m in plan.objects ==> m in objectIDs
    requires Untouched(g.edges, left, ids[Obj(ref)]) && NoTwins(g.edges)
    requires LeftOf(plan.base.relationships, left, retained, ids, mark) && OldEdgesKept(g.edges, left, mark)
    ensures Distinct(targetIDs) && objectIDs[ref] == ids[Obj(ref)] && objectIDs[ref] in g.nodes
    ensures Agrees(g.edges, plan.base.relationships, objectIDs[ref], Elements(targetIDs))
    ensures forall t :: t in targetIDs ==> t in g.nodes
    ensures forall m :: HasMember(Planned(plan), ref, m) ==> Obj(m) in ids
  {
    assert Obj(ref) in ids;
    PresentIds(g.nodes, Planned(plan), ids, Obj(ref));
    ResolvedDistinct(Planned(plan), ids, ref, targetIDs);
    AgreesHere(plan.base.relationships, g.edges, left, retained, ids, mark, Planned(plan), ref, targetIDs);
    forall t | t in targetIDs ensures t in g.nodes {
      var i :| 0 <= i < |targetIDs| && targetIDs[i] == t;
      PresentIds(g.nodes, Planned(plan), ids, Obj(Planned(plan)[ref].domain.includes[i].ref));
    }
    forall m | HasMember(Planned(plan), ref, m) ensures Obj(m) in ids {
      assert To(m) in Planned(plan)[ref].domain.includes && m in plan.objects && m in objectIDs;
    }
  }

  // ----- syncInternalGraph

  lemma RemovalLeaves(plan: Plan, baseIds: Ids, before: map<Id, Node>, nodes: map<Id, Node>, edges: map<Id, Edge>,
                      retained: set<Id>, removals: set<Id>)
    requires HoldsBase(plan, baseIds, before) && nodes.Keys == before.Keys
    requires forall i :: i in edges ==> edges[i].start in before && edges[i].end in before
    requires forall k {:trigger IsBaseId(plan.base, k)} :: k in removals <==> k !in retained && IsBaseId(plan.base, k)
    ensures nodes - removals == Restrict(nodes, retained)
    ensures (map i | i in edges && edges[i].start !in removals && edges[i].end !in removals :: edges[i]) == RestrictEdges(edges, retained)
  {
    forall id | id in before ensures id in removals <==> id !in retained {
      RemovalRetains(plan, baseIds, before, retained, removals, id);
    }
  }

  // What the first two loops leave behind.
  ghost predicate Trimmed(g: InternalGraph, plan: Plan, refs: seq<Ref>, baseIds: Ids, retained: set<Id>, objectIDs: map<Ref, Id>,
                          kept: set<Entity>, left: map<Id, Edge>, mark: Id)
    reads g
  {
    && (forall e {:trigger e in kept} :: e in kept <==> Kept(plan, e))
    && (forall e {:trigger e in kept} :: e in kept ==> Claim(plan, e).value in baseIds && KeptId(plan, baseIds, e) in retained)
    && Growing(g, Planned(plan), KeptIds(plan, baseIds, kept), left, mark)
    && Tracks(objectIDs, KeptIds(plan, baseIds, kept))
    && left == RestrictEdges(plan.base.relationships, retained) && g.edges == left
  }

  // What no planned entity continues is deleted with its edges.
  method RemoveOthers(g: InternalGraph, plan: Plan, retained: set<Id>, ghost schema: Schema, ghost baseIds: Ids, ghost before: map<Id, Node>,
                      ghost kept: set<Entity>)
    requires g.Valid() && ValidPlan(plan) && Decodes(schema, before, g.edges, plan.base, baseIds)
    requires Survivors(plan, baseIds, g.nodes, kept, retained) && g.nodes.Keys == before.Keys
    requires forall e :: e in kept ==> Claim(plan, e).Some? && Claim(plan, e).value in baseIds
    modifies g`nodes, g`edges
    ensures g.Valid() && g.edges == RestrictEdges(old(g.edges), retained)
    ensures NodesPartly(g.nodes, Planned(plan), KeptIds(plan, baseIds, kept)) && EdgesPartly(g.edges, Planned(plan), KeptIds(plan, baseIds, kept))
  {
    ghost var nodes, edges := g.nodes, g.edges;
    BaseEdgesJoinNodes(schema, before, edges, plan.base, baseIds);
    var removals := CollectRemovals(plan.base, retained);
    RemoveNodes(g, removals);
    RemovalLeaves(plan, baseIds, before, nodes, edges, retained, removals);
    NodesAfterRemoval(plan, baseIds, nodes, kept, retained);
    EdgesAfterRemoval(plan, baseIds, nodes, edges, kept, retained);
  }

  method TrimBase(g: InternalGraph, plan: Plan, refs: seq<Ref>, ghost schema: Schema, ghost baseIds: Ids)
      returns (r: Result<map<Ref, Id>>, ghost retained: set<Id>, ghost kept: set<Entity>, ghost left: map<Id, Edge>)
    requires g.Valid() && ValidPlan(plan) && Lists(refs, plan.objects)
    requires Decodes(schema, g.nodes, g.edges, plan.base, baseIds)
    modifies g`nodes, g`edges
    ensures r.Success? && Trimmed(g, plan, refs, baseIds, retained, r.value, kept, left, g.nextId)
  {
    ghost var before, edges := g.nodes, g.edges;
    BaseEdgesJoinNodes(schema, before, edges, plan.base, baseIds);
    kept := SurvivorsWritten(plan, baseIds, before, refs);
    var survivors := UpdateSurvivors(g, plan, refs);
    if survivors.Failure? {
      ghost var culprit :| culprit in refs && !Continuous(plan, culprit);
      PlanContinuous(plan, baseIds, before, culprit);
      return Failure(Consistency), {}, kept, map[];
    }
    var (ids, objectIDs) := survivors.value;
    retained := ids;
    ghost var nodes := g.nodes;
    SurvivorIds(plan, baseIds, nodes, kept, retained);
    RemoveOthers(g, plan, ids, schema, baseIds, before, kept);
    left := g.edges;
    forall e | e in kept ensures KeptId(plan, baseIds, e) in retained {
      assert RetainedBy(plan, baseIds, kept, KeptId(plan, baseIds, e));
    }
    return Success(objectIDs), retained, kept, left;
  }

  lemma BaseEdgesJoinNodes(schema: Schema, nodes: map<Id, Node>, edges: map<Id, Edge>, base: Snapshot, baseIds: Ids)
    requires Decodes(schema, nodes, edges, base, baseIds)
    ensures forall i :: i in edges ==> edges[i].start in nodes && edges[i].end in nodes
  {
    PlanGraphShaped(nodes, edges, ObjectsOf(base), baseIds);
  }

  lemma TrimmedObjects(g: InternalGraph, plan: Plan, refs: seq<Ref>, baseIds: Ids, retained: set<Id>, objectIDs: map<Ref, Id>,
                       kept: set<Entity>, left: map<Id, Edge>, mark: Id)
    requires Lists(refs, plan.objects) && Trimmed(g, plan, refs, baseIds, retained, objectIDs, kept, left, mark)
    ensures ToCreate(plan, refs, 0, objectIDs)
    ensures forall r :: r in plan.objects && plan.objects[r].baseRef.Some? ==> r in objectIDs
  {
    forall r | r in plan.objects ensures r in objectIDs <==> plan.objects[r].baseRef.Some? {
      assert Obj(r) in kept <==> Kept(plan, Obj(r));
      assert r in objectIDs <==> Obj(r) in KeptIds(plan, baseIds, kept);
    }
    forall i | 0 <= i < |refs| ensures refs[i] in plan.objects {
      assert refs[i] in refs;
    }
  }

  lemma TrimmedProperties(plan: Plan, refs: seq<Ref>, baseIds: Ids, kept: set<Entity>, grown: Ids)
    requires Lists(refs, plan.objects) && SourcesKnown(plan)
    requires forall e {:trigger e in kept} :: e in kept <==> Kept(plan, e)
    requires forall e {:trigger e in kept} :: e in kept ==> Claim(plan, e).Some? && Claim(plan, e).value in baseIds
    requires SameProperties(KeptIds(plan, baseIds, kept), grown)
    ensures PropertiesDone(plan, refs, 0, grown)
  {
    forall i | 0 <= i < |refs| ensures Leftover(plan, grown, refs[i]) {
      assert refs[i] in refs;
      forall name | HasProperty(Planned(plan), refs[i], name)
        ensures Prop(refs[i], name) in grown <==> BaseName(plan.objects[refs[i]], name) != ""
      {
        assert Prop(refs[i], name) in kept <==> Kept(plan, Prop(refs[i], name));
      }
    }
  }

  lemma AllFinished(plan: Plan, refs: seq<Ref>, nodes: map<Id, Node>, ids: Ids)
    requires Lists(refs, plan.objects) && PropertiesDone(plan, refs, |refs|, ids) && NodesPartly(nodes, Planned(plan), ids)
    ensures Complete(Planned(plan), ids) && NodesHold(nodes, Planned(plan), ids)
  {
    forall e | HasEntity(Planned(plan), e) ensures e in ids && NodeHolds(nodes, Planned(plan), ids, e) {
      assert e.ref in refs;
      var i :| 0 <= i < |refs| && refs[i] == e.ref;
      assert Finished(Planned(plan), ids, refs[i]);
    }
    forall e | e in ids ensures HasEntity(Planned(plan), e) {
      PresentIds(nodes, Planned(plan), ids, e);
    }
  }

  lemma MembersStart(g: InternalGraph, plan: Plan, refs: seq<Ref>, ids: Ids, left: map<Id, Edge>, mark: Id)
    requires Growing(g, Planned(plan), ids, left, mark) && (forall i :: i in left ==> i < mark)
    requires PropertiesDone(plan, refs, |refs|, ids)
    ensures MembersUpTo(Planned(plan), refs, 0, ids, g.edges, left) && OldEdgesKept(g.edges, left, mark)
  {
    forall i | 0 <= i < |refs| ensures Obj(refs[i]) in ids && Untouched(g.edges, left, ids[Obj(refs[i])]) {
      assert Finished(Planned(plan), ids, refs[i]);
    }
  }

  // Every surviving entity keeps its node and everything else is new.
  ghost predicate NodesContinue(plan: Plan, baseIds: Ids, ids: Ids, mark: Id) {
    forall e {:trigger ids[e]} :: e in ids ==>
      if Kept(plan, e) then Claim(plan, e).value in baseIds && ids[e] == KeptId(plan, baseIds, e) else ids[e] >= mark
  }

  // Every edge the plan still says keeps its identity, and no old identity is given to another edge.
  ghost predicate EdgesContinue(before: map<Id, Edge>, after: map<Id, Edge>, objects: Objects, ids: Ids, mark: Id) {
    && (forall i {:trigger Explained(objects, ids, before[i])} :: i in before && Explained(objects, ids, before[i]) ==>
         i in after && after[i] == before[i])
    && (forall i :: i in after && i < mark ==> i in before && before[i] == after[i])
  }

  lemma NewNodes(plan: Plan, baseIds: Ids, kept: set<Entity>, retained: set<Id>, middle: Ids, ids: Ids, mark: Id)
    requires forall e {:trigger e in kept} :: e in kept <==> Kept(plan, e)
    requires forall e {:trigger e in kept} :: e in kept ==>
               Claim(plan, e).Some? && Claim(plan, e).value in baseIds && KeptId(plan, baseIds, e) in retained
    requires Fresh(KeptIds(plan, baseIds, kept), middle, mark) && Fresh(middle, ids, mark)
    ensures NodesContinue(plan, baseIds, ids, mark)
    ensures forall e {:trigger ids[e]} :: e in ids ==> ids[e] in retained || ids[e] >= mark
  {
    forall e | e in ids
      ensures ids[e] in retained || ids[e] >= mark
      ensures if Kept(plan, e) then Claim(plan, e).value in baseIds && ids[e] == KeptId(plan, baseIds, e) else ids[e] >= mark
    {
      if e in kept {
        assert e in KeptIds(plan, baseIds, kept) && e in middle;
      } else if e in middle {
        assert middle[e] >= mark;
      }
    }
  }

  lemma OldEdgesContinue(relationships: map<Id, Edge>, after: map<Id, Edge>, left: map<Id, Edge>, retained: set<Id>, objects: Objects,
                         ids: Ids, mark: Id)
    requires LeftOf(relationships, left, retained, ids, mark) && KeepsIdentity(after, left, objects, ids) && OldEdgesKept(after, left, mark)
    ensures EdgesContinue(relationships, after, objects, ids, mark)
  {
    forall i | i in relationships && Explained(objects, ids, relationships[i]) ensures i in after && after[i] == relationships[i] {
      var l :| HasLink(objects, l) && Linked(l, ids, relationships[i]);
      assert ids[Ends(l).0] in retained && ids[Ends(l).1] in retained;
      assert left[i] == relationships[i];
    }
  }

  lemma SyncedPlanHeld(plan: Plan, refs: seq<Ref>, nodes: map<Id, Node>, edges: map<Id, Edge>, left: map<Id, Edge>, ids: Ids)
    requires ValidPlan(plan) && Lists(refs, plan.objects)
    requires NodesPartly(nodes, Planned(plan), ids) && PropertiesDone(plan, refs, |refs|, ids)
    requires MembersUpTo(Planned(plan), refs, |refs|, ids, edges, left)
    ensures Complete(Planned(plan), ids)
    ensures Decodes(TargetSchema(Planned(plan)), nodes, edges, Target(Planned(plan), ids, edges), ids)
    ensures ValidSchema(TargetSchema(Planned(plan))) && WellShaped(nodes, edges)
  {
    AllFinished(plan, refs, nodes, ids);
    forall d | d in Planned(plan) && Planned(plan)[d].DomainValue? ensures MembersHold(edges, Planned(plan), ids, d) {
      assert d in refs;
      var i :| 0 <= i < |refs| && refs[i] == d;
      assert IsDomain(Planned(plan), refs[i]);
    }
    AllMembersHold(edges, Planned(plan), ids);
    HeldPlanDecodes(nodes, edges, Planned(plan), ids);
  }

  // The memberships of a graph whose nodes are all there.
  method LinkMembers(g: InternalGraph, plan: Plan, refs: seq<Ref>, objectIDs: map<Ref, Id>, ghost ids: Ids, ghost left: map<Id, Edge>,
                     ghost retained: set<Id>, ghost mark: Id)
      returns (r: Result<()>)
    requires ValidPlan(plan) && Lists(refs, plan.objects) && Growing(g, Planned(plan), ids, left, mark) && Tracks(objectIDs, ids)
    requires (forall q :: q in plan.objects ==> q in objectIDs) && PropertiesDone(plan, refs, |refs|, ids)
    requires LeftOf(plan.base.relationships, left, retained, ids, mark) && (forall i :: i in left ==> i < mark) && mark <= g.nextId
    modifies g`edges, g`nextId
    ensures r.Success? && g.Valid() && Complete(Planned(plan), ids)
    ensures EdgesContinue(plan.base.relationships, g.edges, Planned(plan), ids, mark)
    ensures Decodes(TargetSchema(Planned(plan)), g.nodes, g.edges, Target(Planned(plan), ids, g.edges), ids)
    ensures ValidSchema(TargetSchema(Planned(plan))) && WellShaped(g.nodes, g.edges)
  {
    MembersStart(g, plan, refs, ids, left, mark);
    r := SyncMembership(g, plan, refs, objectIDs, ids, left, retained, mark);
    OldEdgesContinue(plan.base.relationships, g.edges, left, retained, Planned(plan), ids, mark);
    SyncedPlanHeld(plan, refs, g.nodes, g.edges, left, ids);
  }

  // A graph that says the base becomes one that says the plan, and identities survive.
  method SyncInternalGraph(g: InternalGraph, plan: Plan, ghost schema: Schema, ghost baseIds: Ids) returns (r: Result<()>, ghost ids: Ids)
    requires g.Valid() && ValidPlan(plan)
    requires Decodes(schema, g.nodes, g.edges, plan.base, baseIds)
    modifies g
    ensures r.Success? && g.Valid() && Complete(Planned(plan), ids)
    ensures Decodes(TargetSchema(Planned(plan)), g.nodes, g.edges, Target(Planned(plan), ids, g.edges), ids)
    ensures NodesContinue(plan, baseIds, ids, old(g.nextId))
    ensures EdgesContinue(old(g.edges), g.edges, Planned(plan), ids, old(g.nextId))
    ensures ValidSchema(TargetSchema(Planned(plan))) && WellShaped(g.nodes, g.edges)
  {
    var refs := SortedList(plan.objects.Keys, RefKey);
    ghost var mark := g.nextId;
    var trimmed, retained, kept, left := TrimBase(g, plan, refs, schema, baseIds);
    if trimmed.Failure? {
      return Failure(Consistency), map[];
    }
    var survivors := trimmed.value;
    TrimmedObjects(g, plan, refs, baseIds, retained, survivors, kept, left, mark);
    var objectIDs, middle := CreateObjects(g, plan, refs, survivors, KeptIds(plan, baseIds, kept), left, mark);
    TrimmedProperties(plan, refs, baseIds, kept, middle);
    var properties, grown := CreateAllProperties(g, plan, refs, objectIDs, middle, left, mark);
    if properties.Failure? {
      return Failure(Consistency), map[];
    }
    ids := grown;
    NewNodes(plan, baseIds, kept, retained, middle, ids, mark);
    r := LinkMembers(g, plan, refs, objectIDs, ids, left, retained, mark);
  }

  // validatePlannedSnapshot: the decoded snapshot has exactly the planned objects.
  method ValidatePlannedSnapshot(objects: Objects, staged: Snapshot) returns (ok: bool)
    ensures ok <==> ObjectsOf(staged) == objects
  {
    assert ObjectsOf(staged).Keys == staged.records.Keys;
    if |objects.Keys| != |staged.records.Keys| {
      return false;
    }
    var todo := objects.Keys;
    while todo != {}
      invariant todo <= objects.Keys
      invariant forall r :: r in objects && r !in todo ==> r in staged.records && ValueOf(staged.records[r]) == objects[r]
      decreases |todo|
    {
      var r :| r in todo;
      todo := todo - {r};
      if r !in staged.records || ValueOf(staged.records[r]) != objects[r] {
        assert !(r in ObjectsOf(staged) && ObjectsOf(staged)[r] == objects[r]);
        return false;
      }
    }
    SameSize(objects.Keys, staged.records.Keys);
    return true;
  }

  // Writing a plan and decoding what was written gives the plan back: every object with its
  // metadata and members, every surviving node under its old identity, every edge.
  method CompileAndDecode(g: InternalGraph, plan: Plan, ghost schema: Schema, ghost baseIds: Ids)
      returns (decoded: Result<Snapshot>, ghost ids: Ids)
    requires g.Valid() && ValidPlan(plan)
    requires Decodes(schema, g.nodes, g.edges, plan.base, baseIds)
    modifies g
    ensures g.Valid() && Complete(Planned(plan), ids)
    ensures decoded == Success(Target(Planned(plan), ids, g.edges)) && ObjectsOf(decoded.value) == Planned(plan)
    ensures NodesContinue(plan, baseIds, ids, old(g.nextId))
    ensures EdgesContinue(old(g.edges), g.edges, Planned(plan), ids, old(g.nextId))
    ensures Decodes(TargetSchema(Planned(plan)), g.nodes, g.edges, decoded.value, ids)
  {
    var objects := map r | r in plan.objects :: plan.objects[r].value;
    var synced, given := SyncInternalGraph(g, plan, schema, baseIds);
    ids := given;
    ghost var target := Target(Planned(plan), ids, g.edges);
    decoded := BindInternalGraph(TargetSchema(objects), g.nodes, g.edges);
    if decoded.Failure? {
      assert false;
    }
    DecodingUnique(TargetSchema(objects), g.nodes, g.edges, decoded.value, IdsOf(decoded.value), target, ids);
    TargetValues(objects, ids, g.edges);
    var same := ValidatePlannedSnapshot(objects, decoded.value);
    if !same {
      return Failure(Consistency), ids;
    }
  }
}
