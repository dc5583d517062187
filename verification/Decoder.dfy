// bindInternalGraph (internal/kernel/snapshot_internal.go): the strict decoder of the binding graph.

module DecoderFacts {
  import opened Outcomes
  import opened Text
  import opened Sorting
  import opened Model
  import opened BindingGraph

  // decodeInternalGraphResults and decodeInternalNode let nothing else through.
  ghost predicate WellShaped(nodes: map<Id, Node>, edges: map<Id, Edge>) {
    && (forall i :: i in edges ==> edges[i].start in nodes && edges[i].end in nodes)
    && (forall id :: id in nodes ==>
         if nodes[id].category == DefinitionBinding then nodes[id].kind == "node" || nodes[id].kind == "relationship"
         else nodes[id].kind == "")
  }

  function BindingRef(node: Node): Ref {
    if node.category == DomainNode then Ref(DomainKind, node.name)
    else Ref(if node.kind == "relationship" then RelationshipDefinition else NodeDefinition, node.name)
  }

  predicate EdgeTyped(nodes: map<Id, Node>, edge: Edge)
    requires edge.start in nodes && edge.end in nodes
  {
    match edge.kind
    case PropertyOf => nodes[edge.start].category == PropertyBinding && nodes[edge.end].category == DefinitionBinding
    case Includes => nodes[edge.start].category == DomainNode && nodes[edge.end].category != PropertyBinding
  }

  predicate Owner(edges: map<Id, Edge>, p: Id, d: Id, i: Id) {
    i in edges && edges[i] == Edge(PropertyOf, p, d)
  }

  // Everything bindInternalGraph checks, each condition standing for one of its error branches.
  ghost predicate EdgesBound(nodes: map<Id, Node>, edges: map<Id, Edge>)
    requires WellShaped(nodes, edges)
  {
    && (forall i :: i in edges ==> EdgeTyped(nodes, edges[i]))
    && (forall i, j :: i in edges && j in edges && edges[i].kind == Includes && edges[i] == edges[j] ==> i == j)
  }

  ghost predicate LocatorsDistinct(nodes: map<Id, Node>) {
    forall a, b ::
      (a in nodes && b in nodes && nodes[a].category != PropertyBinding && nodes[b].category != PropertyBinding
       && BindingRef(nodes[a]) == BindingRef(nodes[b])) ==> a == b
  }

  ghost predicate OneOwner(nodes: map<Id, Node>, edges: map<Id, Edge>) {
    forall p :: p in nodes && nodes[p].category == PropertyBinding ==>
      && (exists i, d :: Owner(edges, p, d, i))
      && (forall i, j, d, e :: Owner(edges, p, d, i) && Owner(edges, p, e, j) ==> i == j)
  }

  ghost predicate BoundTo(nodes: map<Id, Node>, r: Ref, d: Id) {
    d in nodes && nodes[d].category == DefinitionBinding && BindingRef(nodes[d]) == r
  }

  ghost predicate DefinitionsCovered(schema: Schema, nodes: map<Id, Node>) {
    && (forall r :: r in schema ==> exists d :: BoundTo(nodes, r, d))
    && (forall d :: d in nodes && nodes[d].category == DefinitionBinding ==> BindingRef(nodes[d]) in schema)
  }

  // p is the Property binding of name under the Definition r.
  ghost predicate PropertyBound(nodes: map<Id, Node>, edges: map<Id, Edge>, r: Ref, name: string, p: Id) {
    && p in nodes && nodes[p].category == PropertyBinding && nodes[p].name == name
    && exists i, d :: Owner(edges, p, d, i) && BoundTo(nodes, r, d)
  }

  ghost predicate PropertiesCovered(schema: Schema, nodes: map<Id, Node>, edges: map<Id, Edge>) {
    && (forall r, name, p :: PropertyBound(nodes, edges, r, name, p) ==>
         r in schema && name in PropertyNames(schema[r].properties))
    && (forall r, name, p, q :: PropertyBound(nodes, edges, r, name, p) && PropertyBound(nodes, edges, r, name, q) ==> p == q)
    && (forall r, name :: r in schema && name in PropertyNames(schema[r].properties) ==>
         exists p :: PropertyBound(nodes, edges, r, name, p))
  }

  ghost predicate WellBound(schema: Schema, nodes: map<Id, Node>, edges: map<Id, Edge>)
    requires WellShaped(nodes, edges)
  {
    && EdgesBound(nodes, edges) && LocatorsDistinct(nodes) && OneOwner(nodes, edges)
    && DefinitionsCovered(schema, nodes) && PropertiesCovered(schema, nodes, edges)
  }

  ghost predicate ValidSchema(schema: Schema) {
    forall r :: r in schema ==>
      && r == Ref(schema[r].kind, schema[r].name) && IsDefinition(r.kind)
      && DistinctProperties(schema[r].properties) && Bare(schema[r]) == schema[r]
  }

  // ----- a graph that holds a snapshot passes every check

  lemma BareNames(d: Definition)
    ensures PropertyNames(Bare(d).properties) == PropertyNames(d.properties)
  {
    var b := Bare(d);
    forall name | name in PropertyNames(d.properties) ensures name in PropertyNames(b.properties) {
      var i :| 0 <= i < |d.properties| && d.properties[i].name == name;
      assert b.properties[i] in b.properties && b.properties[i].name == name;
    }
    forall name | name in PropertyNames(b.properties) ensures name in PropertyNames(d.properties) {
      var i :| 0 <= i < |b.properties| && b.properties[i].name == name;
      assert d.properties[i] in d.properties;
    }
  }

  // In a graph that holds objects, a node's locator is its object.
  lemma LocatorOf(nodes: map<Id, Node>, objects: Objects, ids: Ids, id: Id)
    requires WellNamed(objects) && NodesHold(nodes, objects, ids)
    requires id in nodes && nodes[id].category != PropertyBinding
    ensures BindingRef(nodes[id]) in objects && Obj(BindingRef(nodes[id])) in ids
    ensures ids[Obj(BindingRef(nodes[id]))] == id
    ensures objects[BindingRef(nodes[id])].DomainValue? <==> nodes[id].category == DomainNode
  {
    assert Names(ids, id);
    var e :| e in ids && ids[e] == id;
    assert NodeHolds(nodes, objects, ids, e);
  }

  // The node of an object has that object as its locator.
  lemma NodeOfObject(nodes: map<Id, Node>, objects: Objects, ids: Ids, r: Ref)
    requires WellNamed(objects) && NodesHold(nodes, objects, ids) && r in objects
    ensures Obj(r) in ids && ids[Obj(r)] in nodes && nodes[ids[Obj(r)]].category != PropertyBinding
    ensures nodes[ids[Obj(r)]].category == DomainNode <==> objects[r].DomainValue?
    ensures BindingRef(nodes[ids[Obj(r)]]) == r
  {
    assert NodeHolds(nodes, objects, ids, Obj(r));
  }

  lemma NodeOfProperty(nodes: map<Id, Node>, objects: Objects, ids: Ids, r: Ref, name: string)
    requires NodesHold(nodes, objects, ids) && HasProperty(objects, r, name)
    ensures Prop(r, name) in ids && ids[Prop(r, name)] in nodes
    ensures nodes[ids[Prop(r, name)]].category == PropertyBinding && nodes[ids[Prop(r, name)]].name == name
  {
    assert NodeHolds(nodes, objects, ids, Prop(r, name));
  }

  lemma PropertyOfNode(nodes: map<Id, Node>, edges: map<Id, Edge>, objects: Objects, ids: Ids, p: Id, d: Id, i: Id)
      returns (r: Ref, name: string)
    requires WellNamed(objects) && Holds(nodes, edges, objects, ids)
    requires Owner(edges, p, d, i)
    ensures HasProperty(objects, r, name)
    ensures Prop(r, name) in ids && ids[Prop(r, name)] == p && Obj(r) in ids && ids[Obj(r)] == d
    ensures p in nodes && nodes[p].category == PropertyBinding && nodes[p].name == name
    ensures BoundTo(nodes, r, d)
  {
    assert Explained(objects, ids, edges[i]);
    var l :| HasLink(objects, l) && Linked(l, ids, edges[i]);
    r, name := l.ref, l.name;
    NodeOfProperty(nodes, objects, ids, r, name);
    NodeOfObject(nodes, objects, ids, r);
  }

  lemma OwnerOfProperty(nodes: map<Id, Node>, edges: map<Id, Edge>, objects: Objects, ids: Ids, r: Ref, name: string)
      returns (i: Id)
    requires WellNamed(objects) && Holds(nodes, edges, objects, ids) && HasProperty(objects, r, name)
    ensures Prop(r, name) in ids && Obj(r) in ids
    ensures Owner(edges, ids[Prop(r, name)], ids[Obj(r)], i)
    ensures PropertyBound(nodes, edges, r, name, ids[Prop(r, name)])
  {
    var l := Owns(r, name);
    assert HasLink(objects, l) && LinkHolds(edges, ids, l);
    i :| i in edges && edges[i] == LinkEdge(l, ids);
    NodeOfProperty(nodes, objects, ids, r, name);
    NodeOfObject(nodes, objects, ids, r);
    assert Owner(edges, ids[Prop(r, name)], ids[Obj(r)], i) && BoundTo(nodes, r, ids[Obj(r)]);
  }

  lemma PropertyBoundMeans(nodes: map<Id, Node>, edges: map<Id, Edge>, objects: Objects, ids: Ids, r: Ref, name: string, p: Id)
    requires WellNamed(objects) && Holds(nodes, edges, objects, ids) && PropertyBound(nodes, edges, r, name, p)
    ensures HasProperty(objects, r, name) && Prop(r, name) in ids && ids[Prop(r, name)] == p
  {
    var i: Id, d: Id :| Owner(edges, p, d, i) && BoundTo(nodes, r, d);
    var q, n := PropertyOfNode(nodes, edges, objects, ids, p, d, i);
  }

  lemma HeldEdgeTyped(nodes: map<Id, Node>, edges: map<Id, Edge>, objects: Objects, ids: Ids, i: Id)
    requires WellNamed(objects) && Holds(nodes, edges, objects, ids) && i in edges
    requires forall d, t :: HasMember(objects, d, t) ==> t in objects
    ensures edges[i].start in nodes && edges[i].end in nodes && EdgeTyped(nodes, edges[i])
  {
    assert Explained(objects, ids, edges[i]);
    var l :| HasLink(objects, l) && Linked(l, ids, edges[i]);
    match l
    case Owns(r, name) =>
      NodeOfProperty(nodes, objects, ids, r, name);
      NodeOfObject(nodes, objects, ids, r);
    case Member(d, t) =>
      NodeOfObject(nodes, objects, ids, d);
      NodeOfObject(nodes, objects, ids, t);
  }

  lemma MembersExist(objects: Objects, d: Ref, t: Ref)
    requires WellFormed(objects) && HasMember(objects, d, t)
    ensures t in objects
  {
    assert WellFormedObject(objects, objects[d]);
  }

  lemma HeldEdgesBound(nodes: map<Id, Node>, edges: map<Id, Edge>, objects: Objects, ids: Ids)
    requires WellShaped(nodes, edges) && WellFormed(objects) && Holds(nodes, edges, objects, ids)
    ensures EdgesBound(nodes, edges)
  {
    forall d, t | HasMember(objects, d, t) ensures t in objects {
      MembersExist(objects, d, t);
    }
    forall i | i in edges ensures EdgeTyped(nodes, edges[i]) {
      HeldEdgeTyped(nodes, edges, objects, ids, i);
    }
  }

  lemma HeldLocators(nodes: map<Id, Node>, objects: Objects, ids: Ids)
    requires WellNamed(objects) && NodesHold(nodes, objects, ids)
    ensures LocatorsDistinct(nodes)
  {
    forall a, b | a in nodes && b in nodes && nodes[a].category != PropertyBinding && nodes[b].category != PropertyBinding
               && BindingRef(nodes[a]) == BindingRef(nodes[b])
      ensures a == b
    {
      LocatorOf(nodes, objects, ids, a);
      LocatorOf(nodes, objects, ids, b);
    }
  }

  lemma OwnersAgree(nodes: map<Id, Node>, edges: map<Id, Edge>, objects: Objects, ids: Ids, p: Id, i: Id, d: Id, j: Id, e: Id)
    requires WellNamed(objects) && Holds(nodes, edges, objects, ids)
    requires Owner(edges, p, d, i) && Owner(edges, p, e, j)
    ensures i == j
  {
    var q, n := PropertyOfNode(nodes, edges, objects, ids, p, d, i);
    var q', n' := PropertyOfNode(nodes, edges, objects, ids, p, e, j);
    assert Prop(q, n) == Prop(q', n');
  }

  lemma HeldOwners(nodes: map<Id, Node>, edges: map<Id, Edge>, objects: Objects, ids: Ids)
    requires WellNamed(objects) && Holds(nodes, edges, objects, ids)
    ensures OneOwner(nodes, edges)
  {
    forall p | p in nodes && nodes[p].category == PropertyBinding
      ensures exists i, d :: Owner(edges, p, d, i)
    {
      assert Names(ids, p);
      var e :| e in ids && ids[e] == p;
      assert NodeHolds(nodes, objects, ids, e);
      var i := OwnerOfProperty(nodes, edges, objects, ids, e.ref, e.name);
    }
    forall p: Id, i: Id, j: Id, d: Id, e: Id | Owner(edges, p, d, i) && Owner(edges, p, e, j) ensures i == j {
      OwnersAgree(nodes, edges, objects, ids, p, i, d, j, e);
    }
  }

  lemma HeldDefinitions(schema: Schema, nodes: map<Id, Node>, objects: Objects, ids: Ids)
    requires WellNamed(objects) && NodesHold(nodes, objects, ids) && MatchesSchema(schema, objects)
    ensures DefinitionsCovered(schema, nodes)
  {
    forall r | r in schema ensures exists d :: BoundTo(nodes, r, d) {
      NodeOfObject(nodes, objects, ids, r);
      assert BoundTo(nodes, r, ids[Obj(r)]);
    }
    forall d | d in nodes && nodes[d].category == DefinitionBinding ensures BindingRef(nodes[d]) in schema {
      LocatorOf(nodes, objects, ids, d);
    }
  }

  lemma SchemaProperty(schema: Schema, objects: Objects, r: Ref, name: string)
    requires MatchesSchema(schema, objects)
    ensures HasProperty(objects, r, name) <==> r in schema && name in PropertyNames(schema[r].properties)
  {
    if r in schema {
      BareNames(objects[r].definition);
    }
  }

  lemma HeldProperties(schema: Schema, nodes: map<Id, Node>, edges: map<Id, Edge>, objects: Objects, ids: Ids)
    requires WellNamed(objects) && Holds(nodes, edges, objects, ids) && MatchesSchema(schema, objects)
    ensures PropertiesCovered(schema, nodes, edges)
  {
    forall r, name, p: Id | PropertyBound(nodes, edges, r, name, p)
      ensures r in schema && name in PropertyNames(schema[r].properties)
      ensures Prop(r, name) in ids && ids[Prop(r, name)] == p
    {
      PropertyBoundMeans(nodes, edges, objects, ids, r, name, p);
      SchemaProperty(schema, objects, r, name);
    }
    forall r, name | r in schema && name in PropertyNames(schema[r].properties)
      ensures exists p :: PropertyBound(nodes, edges, r, name, p)
    {
      SchemaProperty(schema, objects, r, name);
      var i := OwnerOfProperty(nodes, edges, objects, ids, r, name);
    }
  }

  // Nothing the decoder rejects says anything: a graph that holds a snapshot passes all checks.
  lemma DecodableIsBound(schema: Schema, nodes: map<Id, Node>, edges: map<Id, Edge>, s: Snapshot, ids: Ids)
    requires WellShaped(nodes, edges) && Decodes(schema, nodes, edges, s, ids)
    ensures WellBound(schema, nodes, edges)
  {
    var objects := ObjectsOf(s);
    HeldEdgesBound(nodes, edges, objects, ids);
    HeldLocators(nodes, objects, ids);
    HeldOwners(nodes, edges, objects, ids);
    HeldDefinitions(schema, nodes, objects, ids);
    HeldProperties(schema, nodes, edges, objects, ids);
  }

  // ----- a graph holds at most one snapshot

  lemma SameId(schema: Schema, nodes: map<Id, Node>, edges: map<Id, Edge>, a: Objects, aIds: Ids, b: Objects, bIds: Ids, e: Entity)
    requires WellNamed(a) && MatchesSchema(schema, a) && Holds(nodes, edges, a, aIds)
    requires WellNamed(b) && MatchesSchema(schema, b) && Holds(nodes, edges, b, bIds)
    requires HasEntity(a, e)
    ensures HasEntity(b, e) && e in aIds && e in bIds && aIds[e] == bIds[e]
  {
    match e
    case Obj(r) =>
      NodeOfObject(nodes, a, aIds, r);
      LocatorOf(nodes, b, bIds, aIds[e]);
    case Prop(r, name) =>
      var i := OwnerOfProperty(nodes, edges, a, aIds, r, name);
      PropertyBoundMeans(nodes, edges, b, bIds, r, name, aIds[e]);
  }

  lemma SameMembers(nodes: map<Id, Node>, edges: map<Id, Edge>, a: Objects, aIds: Ids, b: Objects, bIds: Ids, d: Ref, t: Ref)
    requires WellNamed(a) && Holds(nodes, edges, a, aIds) && WellNamed(b) && Holds(nodes, edges, b, bIds)
    requires HasMember(a, d, t) && t in a
    requires Obj(d) in aIds && Obj(d) in bIds && aIds[Obj(d)] == bIds[Obj(d)]
    ensures HasMember(b, d, t)
  {
    var l := Member(d, t);
    assert HasLink(a, l) && LinkHolds(edges, aIds, l);
    var i :| i in edges && edges[i] == LinkEdge(l, aIds);
    assert Explained(b, bIds, edges[i]);
    var m :| HasLink(b, m) && Linked(m, bIds, edges[i]);
    assert Obj(m.domain) == Obj(d);
    NodeOfObject(nodes, a, aIds, t);
    assert NodeHolds(nodes, b, bIds, Obj(m.target));
  }

  // Two ordered lists without repetitions over the same members are one list.
  lemma SameOrderedList(a: seq<Reference>, b: seq<Reference>)
    requires Distinct(a) && Distinct(b)
    requires forall m :: m in a <==> m in b
    requires forall m :: m in a ==> m.To?
    requires Ordered(a, MemberKey) && Ordered(b, MemberKey)
    ensures a == b
  {
    assert multiset(a) == multiset(b) by {
      forall m ensures multiset(a)[m] == multiset(b)[m] {
        CountsOnce(a, m);
        CountsOnce(b, m);
      }
    }
    forall i, j | 0 <= i < |a| && 0 <= j < |a| && MemberKey(a[i]) == MemberKey(a[j]) ensures a[i] == a[j] {
      assert a[i] in a && a[j] in a;
      RefKeyInjective(a[i].ref, a[j].ref);
    }
    OrderedUnique(a, b, MemberKey);
  }

  lemma SameProperties(a: Definition, b: Definition)
    requires Bare(a) == Bare(b) && a.title == b.title && a.description == b.description
    requires DistinctProperties(a.properties) && DistinctProperties(b.properties)
    requires forall name :: name in PropertyNames(a.properties) ==>
               name in PropertyNames(b.properties) &&
               var p, q := FindProperty(a.properties, name).value, FindProperty(b.properties, name).value;
               p.title == q.title && p.description == q.description
    ensures a == b
  {
    assert |Bare(a).properties| == |a.properties| && |Bare(b).properties| == |b.properties|;
    forall i | 0 <= i < |a.properties| ensures a.properties[i] == b.properties[i] {
      assert Bare(a).properties[i] == Bare(b).properties[i];
      var name := a.properties[i].name;
      assert a.properties[i] in a.properties && b.properties[i] in b.properties;
      FoundAt(a.properties, i);
      FoundAt(b.properties, i);
      assert name in PropertyNames(a.properties);
    }
  }

  lemma {:induction false} FoundAt(properties: seq<Property>, i: nat)
    requires DistinctProperties(properties) && i < |properties|
    ensures FindProperty(properties, properties[i].name) == Some(properties[i])
  {
    if i > 0 {
      FoundAt(properties[1..], i - 1);
    }
  }

  lemma SameDomain(schema: Schema, nodes: map<Id, Node>, edges: map<Id, Edge>, a: Objects, aIds: Ids, b: Objects, bIds: Ids, r: Ref)
    requires WellFormed(a) && MatchesSchema(schema, a) && Holds(nodes, edges, a, aIds)
    requires WellFormed(b) && MatchesSchema(schema, b) && Holds(nodes, edges, b, bIds)
    requires r in a && r in b && a[r].DomainValue? && b[r].DomainValue?
    requires Content(a, Obj(r)) == Content(b, Obj(r))
    ensures a[r] == b[r]
  {
    var c, d := a[r].domain, b[r].domain;
    assert WellFormedObject(a, a[r]) && WellFormedObject(b, b[r]);
    SameId(schema, nodes, edges, a, aIds, b, bIds, Obj(r));
    forall m ensures m in c.includes <==> m in d.includes {
      if m in c.includes {
        SameMembers(nodes, edges, a, aIds, b, bIds, r, m.ref);
      }
      if m in d.includes {
        SameMembers(nodes, edges, b, bIds, a, aIds, r, m.ref);
      }
    }
    SameOrderedList(c.includes, d.includes);
  }

  lemma SameDefinition(schema: Schema, nodes: map<Id, Node>, edges: map<Id, Edge>, a: Objects, aIds: Ids, b: Objects, bIds: Ids, r: Ref)
    requires WellFormed(a) && MatchesSchema(schema, a) && Holds(nodes, edges, a, aIds)
    requires WellFormed(b) && MatchesSchema(schema, b) && Holds(nodes, edges, b, bIds)
    requires r in a && r in b && a[r].DefinitionValue? && b[r].DefinitionValue?
    requires Content(a, Obj(r)) == Content(b, Obj(r))
    ensures a[r] == b[r]
  {
    var c, d := a[r].definition, b[r].definition;
    assert WellFormedObject(a, a[r]) && WellFormedObject(b, b[r]);
    forall name | name in PropertyNames(c.properties)
      ensures name in PropertyNames(d.properties)
      ensures var p, q := FindProperty(c.properties, name).value, FindProperty(d.properties, name).value;
              p.title == q.title && p.description == q.description
    {
      var e := Prop(r, name);
      SameId(schema, nodes, edges, a, aIds, b, bIds, e);
      assert NodeHolds(nodes, a, aIds, e) && NodeHolds(nodes, b, bIds, e);
    }
    SameProperties(c, d);
  }

  lemma SameObject(schema: Schema, nodes: map<Id, Node>, edges: map<Id, Edge>, a: Objects, aIds: Ids, b: Objects, bIds: Ids, r: Ref)
    requires WellFormed(a) && MatchesSchema(schema, a) && Holds(nodes, edges, a, aIds)
    requires WellFormed(b) && MatchesSchema(schema, b) && Holds(nodes, edges, b, bIds)
    requires r in a
    ensures r in b && a[r] == b[r]
  {
    SameId(schema, nodes, edges, a, aIds, b, bIds, Obj(r));
    assert NodeHolds(nodes, a, aIds, Obj(r)) && NodeHolds(nodes, b, bIds, Obj(r));
    if a[r].DomainValue? {
      SameDomain(schema, nodes, edges, a, aIds, b, bIds, r);
    } else {
      SameDefinition(schema, nodes, edges, a, aIds, b, bIds, r);
    }
  }

  lemma SameRecord(s: Snapshot, sIds: Ids, t: Snapshot, tIds: Ids, r: Ref)
    requires Covered(s) && Covered(t) && GivesIds(s, sIds) && GivesIds(t, tIds)
    requires forall e :: e in sIds ==> e in tIds && sIds[e] == tIds[e]
    requires r in s.records && r in t.records && ValueOf(s.records[r]) == ValueOf(t.records[r])
    ensures s.records[r] == t.records[r]
  {
    assert Obj(r) in sIds;
    if s.records[r].DefinitionRecord? {
      forall name | name in s.records[r].propertyIds ensures s.records[r].propertyIds[name] == t.records[r].propertyIds[name] {
        assert Prop(r, name) in sIds;
      }
      assert s.records[r].propertyIds == t.records[r].propertyIds;
    }
  }

  // The schema and the graph determine the snapshot, element identities included.
  lemma DecodingUnique(schema: Schema, nodes: map<Id, Node>, edges: map<Id, Edge>,
                       s: Snapshot, sIds: Ids, t: Snapshot, tIds: Ids)
    requires Decodes(schema, nodes, edges, s, sIds) && Decodes(schema, nodes, edges, t, tIds)
    ensures s == t
  {
    forall r | r in s.records ensures r in t.records && s.records[r] == t.records[r] {
      SameDecodedRecord(schema, nodes, edges, s, sIds, t, tIds, r);
    }
    forall r | r in t.records ensures r in s.records {
      SameDecodedRecord(schema, nodes, edges, t, tIds, s, sIds, r);
    }
    assert s.records == t.records;
  }

  lemma SameDecodedRecord(schema: Schema, nodes: map<Id, Node>, edges: map<Id, Edge>,
                          s: Snapshot, sIds: Ids, t: Snapshot, tIds: Ids, r: Ref)
    requires Decodes(schema, nodes, edges, s, sIds) && Decodes(schema, nodes, edges, t, tIds)
    requires r in s.records
    ensures r in t.records && s.records[r] == t.records[r]
  {
    var a, b := ObjectsOf(s), ObjectsOf(t);
    SameObject(schema, nodes, edges, a, sIds, b, tIds, r);
    forall e | e in sIds ensures e in tIds && sIds[e] == tIds[e] {
      SameId(schema, nodes, edges, a, sIds, b, tIds, e);
    }
    SameRecord(s, sIds, t, tIds, r);
  }
}

module Decoder {
  import opened Outcomes
  import opened Sizes
  import opened Text
  import opened Sorting
  import opened Model
  import opened BindingGraph
  import opened DecoderFacts

  // ----- edges

  datatype EdgeIndex = EdgeIndex(owner: map<Id, Id>, ownerCount: map<Id, nat>, includeTargets: map<Id, seq<Id>>)

  function OwnerEdges(edges: map<Id, Edge>, p: Id): set<Id> {
    set i | i in edges && edges[i].kind == PropertyOf && edges[i].start == p
  }

  function Targets(x: EdgeIndex, d: Id): seq<Id> {
    if d in x.includeTargets then x.includeTargets[d] else []
  }

  function Count(x: EdgeIndex, p: Id): nat {
    if p in x.ownerCount then x.ownerCount[p] else 0
  }

  ghost predicate OwnersTallied(edges: map<Id, Edge>, x: EdgeIndex) {
    forall p {:trigger OwnerEdges(edges, p)} :: Count(x, p) == |OwnerEdges(edges, p)|
  }

  ghost predicate OwnersCarried(edges: map<Id, Edge>, x: EdgeIndex) {
    forall p {:trigger x.owner[p]} :: p in x.owner ==> Carries(edges, Edge(PropertyOf, p, x.owner[p]))
  }

  ghost predicate OwnersFound(edges: map<Id, Edge>, x: EdgeIndex) {
    forall i {:trigger edges[i]} :: i in edges && edges[i].kind == PropertyOf ==> edges[i].start in x.owner
  }

  ghost predicate OwnersIndexed(edges: map<Id, Edge>, x: EdgeIndex) {
    OwnersTallied(edges, x) && OwnersCarried(edges, x) && OwnersFound(edges, x)
  }

  ghost predicate IncludesIndexed(edges: map<Id, Edge>, x: EdgeIndex) {
    && (forall d: Id, t: Id {:trigger Carries(edges, Edge(Includes, d, t))} ::
         t in Targets(x, d) <==> Carries(edges, Edge(Includes, d, t)))
    && (forall d {:trigger Distinct(Targets(x, d))} :: Distinct(Targets(x, d)))
  }

  // x indexes exactly these edges.
  ghost predicate Indexed(edges: map<Id, Edge>, x: EdgeIndex) {
    OwnersIndexed(edges, x) && IncludesIndexed(edges, x)
  }

  lemma OwnerEdgesMore(edges: map<Id, Edge>, i: Id, edge: Edge, p: Id)
    requires i !in edges
    ensures OwnerEdges(edges[i := edge], p)
         == OwnerEdges(edges, p) + if edge.kind == PropertyOf && edge.start == p then {i} else {}
  {
  }

  function AddOwner(x: EdgeIndex, edge: Edge): EdgeIndex {
    x.(owner := x.owner[edge.start := edge.end], ownerCount := x.ownerCount[edge.start := Count(x, edge.start) + 1])
  }

  function AddInclude(x: EdgeIndex, edge: Edge): EdgeIndex {
    x.(includeTargets := x.includeTargets[edge.start := Targets(x, edge.start) + [edge.end]])
  }

  lemma CountOwner(edges: map<Id, Edge>, x: EdgeIndex, i: Id, edge: Edge)
    requires OwnersTallied(edges, x) && i !in edges && edge.kind == PropertyOf
    ensures OwnersTallied(edges[i := edge], AddOwner(x, edge))
  {
    forall p ensures Count(AddOwner(x, edge), p) == |OwnerEdges(edges[i := edge], p)| {
      OwnerEdgesMore(edges, i, edge, p);
    }
  }

  lemma CarryOwner(edges: map<Id, Edge>, x: EdgeIndex, i: Id, edge: Edge)
    requires OwnersCarried(edges, x) && i !in edges && edge.kind == PropertyOf
    ensures OwnersCarried(edges[i := edge], AddOwner(x, edge))
  {
    var y := AddOwner(x, edge);
    forall p | p in y.owner ensures Carries(edges[i := edge], Edge(PropertyOf, p, y.owner[p])) {
      CarriesMore(edges, i, edge, Edge(PropertyOf, p, y.owner[p]));
    }
  }

  lemma FindOwner(edges: map<Id, Edge>, x: EdgeIndex, i: Id, edge: Edge)
    requires OwnersFound(edges, x) && i !in edges && edge.kind == PropertyOf
    ensures OwnersFound(edges[i := edge], AddOwner(x, edge))
  {
    var more, y := edges[i := edge], AddOwner(x, edge);
    forall k | k in more && more[k].kind == PropertyOf ensures more[k].start in y.owner {
      if k != i {
        assert edges[k].start in x.owner;
      }
    }
  }

  lemma IndexOwner(edges: map<Id, Edge>, x: EdgeIndex, i: Id, edge: Edge)
    requires OwnersIndexed(edges, x) && i !in edges && edge.kind == PropertyOf
    ensures OwnersIndexed(edges[i := edge], AddOwner(x, edge))
  {
    CountOwner(edges, x, i, edge);
    CarryOwner(edges, x, i, edge);
    FindOwner(edges, x, i, edge);
  }

  lemma CountInclude(edges: map<Id, Edge>, x: EdgeIndex, i: Id, edge: Edge)
    requires OwnersTallied(edges, x) && i !in edges && edge.kind == Includes
    ensures OwnersTallied(edges[i := edge], AddInclude(x, edge))
  {
    forall p ensures Count(AddInclude(x, edge), p) == |OwnerEdges(edges[i := edge], p)| {
      OwnerEdgesMore(edges, i, edge, p);
    }
  }

  lemma CarryInclude(edges: map<Id, Edge>, x: EdgeIndex, i: Id, edge: Edge)
    requires OwnersCarried(edges, x) && i !in edges && edge.kind == Includes
    ensures OwnersCarried(edges[i := edge], AddInclude(x, edge))
  {
    var y := AddInclude(x, edge);
    forall p | p in y.owner ensures Carries(edges[i := edge], Edge(PropertyOf, p, y.owner[p])) {
      CarriesMore(edges, i, edge, Edge(PropertyOf, p, y.owner[p]));
    }
  }

  lemma FindInclude(edges: map<Id, Edge>, x: EdgeIndex, i: Id, edge: Edge)
    requires OwnersFound(edges, x) && i !in edges && edge.kind == Includes
    ensures OwnersFound(edges[i := edge], AddInclude(x, edge))
  {
    var more, y := edges[i := edge], AddInclude(x, edge);
    forall k | k in more && more[k].kind == PropertyOf ensures more[k].start in y.owner {
      if k != i {
        assert edges[k].start in x.owner;
      }
    }
  }

  lemma KeepOwners(edges: map<Id, Edge>, x: EdgeIndex, i: Id, edge: Edge)
    requires OwnersIndexed(edges, x) && i !in edges && edge.kind == Includes
    ensures OwnersIndexed(edges[i := edge], AddInclude(x, edge))
  {
    CountInclude(edges, x, i, edge);
    CarryInclude(edges, x, i, edge);
    FindInclude(edges, x, i, edge);
  }

  lemma IndexInclude(edges: map<Id, Edge>, x: EdgeIndex, i: Id, edge: Edge)
    requires IncludesIndexed(edges, x) && i !in edges && edge.kind == Includes && !Carries(edges, edge)
    ensures IncludesIndexed(edges[i := edge], AddInclude(x, edge))
  {
    var more, y := edges[i := edge], AddInclude(x, edge);
    assert edge == Edge(Includes, edge.start, edge.end);
    assert edge.end !in Targets(x, edge.start) by {
      assert !Carries(edges, Edge(Includes, edge.start, edge.end));
    }
    forall d ensures Distinct(Targets(y, d)) {
      assert Distinct(Targets(x, d));
      assert Targets(y, d) == Targets(x, d) + if d == edge.start then [edge.end] else [];
    }
    forall d: Id, t: Id ensures t in Targets(y, d) <==> Carries(more, Edge(Includes, d, t)) {
      CarriesMore(edges, i, edge, Edge(Includes, d, t));
    }
  }

  lemma KeepIncludes(edges: map<Id, Edge>, x: EdgeIndex, i: Id, edge: Edge)
    requires IncludesIndexed(edges, x) && i !in edges && edge.kind == PropertyOf
    ensures IncludesIndexed(edges[i := edge], AddOwner(x, edge))
  {
    var more, y := edges[i := edge], AddOwner(x, edge);
    forall d ensures Targets(y, d) == Targets(x, d) {
    }
    forall d: Id, t: Id ensures t in Targets(y, d) <==> Carries(more, Edge(Includes, d, t)) {
      CarriesMore(edges, i, edge, Edge(Includes, d, t));
    }
  }

  ghost predicate PairsSeen(edges: map<Id, Edge>, pairs: set<(Id, Id)>) {
    forall d: Id, t: Id {:trigger Carries(edges, Edge(Includes, d, t))} :: (d, t) in pairs <==> Carries(edges, Edge(Includes, d, t))
  }

  lemma PairsMore(edges: map<Id, Edge>, pairs: set<(Id, Id)>, i: Id, edge: Edge)
    requires PairsSeen(edges, pairs) && i !in edges
    ensures PairsSeen(edges[i := edge], if edge.kind == Includes then pairs + {(edge.start, edge.end)} else pairs)
  {
    var more := if edge.kind == Includes then pairs + {(edge.start, edge.end)} else pairs;
    forall d: Id, t: Id ensures (d, t) in more <==> Carries(edges[i := edge], Edge(Includes, d, t)) {
      CarriesMore(edges, i, edge, Edge(Includes, d, t));
    }
  }

  function NextIndex(x: EdgeIndex, edge: Edge): EdgeIndex {
    match edge.kind
    case PropertyOf => AddOwner(x, edge)
    case Includes => AddInclude(x, edge)
  }

  function NextPairs(pairs: set<(Id, Id)>, edge: Edge): set<(Id, Id)> {
    if edge.kind == Includes then pairs + {(edge.start, edge.end)} else pairs
  }

  predicate RejectedEdge(nodes: map<Id, Node>, pairs: set<(Id, Id)>, edge: Edge)
    requires edge.start in nodes && edge.end in nodes
  {
    !EdgeTyped(nodes, edge) || (edge.kind == Includes && (edge.start, edge.end) in pairs)
  }

  // What the loop knows about the edges it has read.
  ghost predicate EdgesSeen(nodes: map<Id, Node>, edges: map<Id, Edge>, seen: map<Id, Edge>, x: EdgeIndex, pairs: set<(Id, Id)>)
    requires WellShaped(nodes, edges)
  {
    && (forall i :: i in seen ==> i in edges && seen[i] == edges[i])
    && EdgesBound(nodes, seen) && Indexed(seen, x) && PairsSeen(seen, pairs)
  }

  lemma IndexEdge(seen: map<Id, Edge>, x: EdgeIndex, i: Id, edge: Edge)
    requires Indexed(seen, x) && i !in seen && (edge.kind == Includes ==> !Carries(seen, edge))
    ensures Indexed(seen[i := edge], NextIndex(x, edge))
  {
    match edge.kind
    case PropertyOf =>
      IndexOwner(seen, x, i, edge);
      KeepIncludes(seen, x, i, edge);
    case Includes =>
      KeepOwners(seen, x, i, edge);
      IndexInclude(seen, x, i, edge);
  }

  lemma BoundEdge(nodes: map<Id, Node>, seen: map<Id, Edge>, i: Id, edge: Edge)
    requires WellShaped(nodes, seen) && WellShaped(nodes, seen[i := edge]) && i !in seen && EdgesBound(nodes, seen)
    requires edge.start in nodes && edge.end in nodes && EdgeTyped(nodes, edge)
    requires edge.kind == Includes ==> !Carries(seen, edge)
    ensures EdgesBound(nodes, seen[i := edge])
  {
  }

  lemma RejectedIsUnbound(nodes: map<Id, Node>, edges: map<Id, Edge>, seen: map<Id, Edge>, pairs: set<(Id, Id)>, i: Id)
    requires WellShaped(nodes, edges) && i in edges && i !in seen && PairsSeen(seen, pairs)
    requires forall k :: k in seen ==> k in edges && seen[k] == edges[k]
    requires RejectedEdge(nodes, pairs, edges[i])
    ensures !EdgesBound(nodes, edges)
  {
    var edge := edges[i];
    if EdgeTyped(nodes, edge) {
      assert Carries(seen, Edge(Includes, edge.start, edge.end));
      var k :| k in seen && seen[k] == edge;
      assert edges[k] == edges[i] && k != i;
    }
  }

  lemma SeeEdge(nodes: map<Id, Node>, edges: map<Id, Edge>, seen: map<Id, Edge>, x: EdgeIndex, pairs: set<(Id, Id)>, i: Id)
    requires WellShaped(nodes, edges) && EdgesSeen(nodes, edges, seen, x, pairs) && i in edges && i !in seen
    requires !RejectedEdge(nodes, pairs, edges[i])
    ensures EdgesSeen(nodes, edges, seen[i := edges[i]], NextIndex(x, edges[i]), NextPairs(pairs, edges[i]))
  {
    var edge := edges[i];
    assert edge.kind == Includes ==> !Carries(seen, edge) by {
      assert Edge(Includes, edge.start, edge.end) == edge || edge.kind != Includes;
    }
    PairsMore(seen, pairs, i, edge);
    IndexEdge(seen, x, i, edge);
    BoundEdge(nodes, seen, i, edge);
  }

  lemma AllEdgesSeen(nodes: map<Id, Node>, edges: map<Id, Edge>, seen: map<Id, Edge>, x: EdgeIndex, pairs: set<(Id, Id)>)
    requires WellShaped(nodes, edges) && EdgesSeen(nodes, edges, seen, x, pairs) && seen.Keys == edges.Keys
    ensures EdgesBound(nodes, edges) && Indexed(edges, x)
  {
    assert seen == edges;
  }

  // Reads the edges in any order.
  method ReadEdges(nodes: map<Id, Node>, edges: map<Id, Edge>) returns (r: Result<EdgeIndex>)
    requires WellShaped(nodes, edges)
    ensures r.Success? <==> EdgesBound(nodes, edges)
    ensures r.Success? ==> Indexed(edges, r.value)
  {
    var x := EdgeIndex(map[], map[], map[]);
    var includePairs: set<(Id, Id)> := {};
    var todo := edges.Keys;
    ghost var seen: map<Id, Edge> := map[];
    while todo != {}
      invariant todo <= edges.Keys && seen.Keys == edges.Keys - todo
      invariant EdgesSeen(nodes, edges, seen, x, includePairs)
      decreases |todo|
    {
      var i :| i in todo;
      todo := todo - {i};
      if RejectedEdge(nodes, includePairs, edges[i]) {
        RejectedIsUnbound(nodes, edges, seen, includePairs, i);
        return Failure(Consistency);
      }
      SeeEdge(nodes, edges, seen, x, includePairs, i);
      x, includePairs := NextIndex(x, edges[i]), NextPairs(includePairs, edges[i]);
      seen := seen[i := edges[i]];
    }
    AllEdgesSeen(nodes, edges, seen, x, includePairs);
    return Success(x);
  }

  // ----- nodes

  datatype NodeIndex = NodeIndex(bindings: map<Ref, Id>, domains: map<Ref, Id>)

  // bindings and domains locate exactly the Definition and Domain nodes.
  ghost predicate Located(nodes: map<Id, Node>, y: NodeIndex) {
    && (forall id :: id in nodes && nodes[id].category == DefinitionBinding ==>
         BindingRef(nodes[id]) in y.bindings && y.bindings[BindingRef(nodes[id])] == id)
    && (forall id :: id in nodes && nodes[id].category == DomainNode ==>
         BindingRef(nodes[id]) in y.domains && y.domains[BindingRef(nodes[id])] == id)
    && (forall r :: r in y.bindings ==> BoundTo(nodes, r, y.bindings[r]))
    && (forall r :: r in y.domains ==>
         var id := y.domains[r]; id in nodes && nodes[id].category == DomainNode && BindingRef(nodes[id]) == r)
  }

  lemma LocatedDistinct(nodes: map<Id, Node>, y: NodeIndex)
    requires Located(nodes, y)
    ensures LocatorsDistinct(nodes)
  {
    forall a, b | a in nodes && b in nodes && nodes[a].category != PropertyBinding && nodes[b].category != PropertyBinding
               && BindingRef(nodes[a]) == BindingRef(nodes[b])
      ensures a == b
    {
      assert nodes[a].category == nodes[b].category;
    }
  }

  // Exactly one owner edge is the same as an owner count of one.
  lemma CountIsOneOwner(edges: map<Id, Edge>, x: EdgeIndex, p: Id)
    requires Indexed(edges, x)
    ensures Count(x, p) == 1 <==>
            (exists i, d :: Owner(edges, p, d, i)) && (forall i, j, d, e :: Owner(edges, p, d, i) && Owner(edges, p, e, j) ==> i == j)
  {
    var owners := OwnerEdges(edges, p);
    forall i, d | Owner(edges, p, d, i) ensures i in owners {
    }
    forall i | i in owners ensures Owner(edges, p, edges[i].end, i) {
    }
    if Count(x, p) == 1 {
      var i :| i in owners;
      assert owners == {i} by {
        assert |owners - {i}| == 0;
      }
    }
    if (exists i, d :: Owner(edges, p, d, i)) && (forall i, j, d, e :: Owner(edges, p, d, i) && Owner(edges, p, e, j) ==> i == j) {
      var i: Id, d: Id :| Owner(edges, p, d, i);
      forall k | k in owners ensures k == i {
        assert Owner(edges, p, edges[k].end, k);
      }
      assert owners == {i};
    }
  }

  ghost predicate OwnersCounted(nodes: map<Id, Node>, x: EdgeIndex) {
    forall p :: p in nodes && nodes[p].category == PropertyBinding ==> Count(x, p) == 1
  }

  lemma CountedMeansOwned(nodes: map<Id, Node>, edges: map<Id, Edge>, x: EdgeIndex)
    requires Indexed(edges, x)
    ensures OwnersCounted(nodes, x) <==> OneOwner(nodes, edges)
  {
    forall p ensures Count(x, p) == 1 <==>
            (exists i, d :: Owner(edges, p, d, i)) && (forall i, j, d, e :: Owner(edges, p, d, i) && Owner(edges, p, e, j) ==> i == j)
    {
      CountIsOneOwner(edges, x, p);
    }
  }

  function AddBinding(y: NodeIndex, node: Node, id: Id): NodeIndex {
    match node.category
    case DefinitionBinding => y.(bindings := y.bindings[BindingRef(node) := id])
    case PropertyBinding => y
    case DomainNode => y.(domains := y.domains[BindingRef(node) := id])
  }

  predicate Taken(y: NodeIndex, node: Node) {
    match node.category
    case DefinitionBinding => BindingRef(node) in y.bindings
    case PropertyBinding => false
    case DomainNode => BindingRef(node) in y.domains
  }

  lemma LocatedMore(seen: map<Id, Node>, y: NodeIndex, id: Id, node: Node)
    requires Located(seen, y) && id !in seen && !Taken(y, node)
    ensures Located(seen[id := node], AddBinding(y, node, id))
  {
  }

  lemma TakenTwice(nodes: map<Id, Node>, seen: map<Id, Node>, y: NodeIndex, id: Id)
    requires Located(seen, y) && id in nodes && id !in seen && Taken(y, nodes[id])
    requires forall k :: k in seen ==> k in nodes && seen[k] == nodes[k]
    ensures !LocatorsDistinct(nodes)
  {
    var ref := BindingRef(nodes[id]);
    var other := if nodes[id].category == DomainNode then y.domains[ref] else y.bindings[ref];
    assert other in seen && BindingRef(nodes[other]) == ref && other != id;
  }

  lemma NodesRead(nodes: map<Id, Node>, edges: map<Id, Edge>, x: EdgeIndex, y: NodeIndex)
    requires Indexed(edges, x) && Located(nodes, y) && OwnersCounted(nodes, x)
    ensures LocatorsDistinct(nodes) && OneOwner(nodes, edges)
  {
    LocatedDistinct(nodes, y);
    CountedMeansOwned(nodes, edges, x);
  }

  lemma UncountedIsUnowned(nodes: map<Id, Node>, edges: map<Id, Edge>, x: EdgeIndex, p: Id)
    requires Indexed(edges, x) && p in nodes && nodes[p].category == PropertyBinding && Count(x, p) != 1
    ensures !OneOwner(nodes, edges)
  {
    CountedMeansOwned(nodes, edges, x);
  }

  predicate Rejected(x: EdgeIndex, y: NodeIndex, id: Id, node: Node) {
    Taken(y, node) || (node.category == PropertyBinding && Count(x, id) != 1)
  }

  ghost predicate NodesSeen(nodes: map<Id, Node>, seen: map<Id, Node>, x: EdgeIndex, y: NodeIndex) {
    && (forall id :: id in seen ==> id in nodes && seen[id] == nodes[id])
    && Located(seen, y) && OwnersCounted(seen, x)
  }

  lemma SeeNode(nodes: map<Id, Node>, edges: map<Id, Edge>, seen: map<Id, Node>, x: EdgeIndex, y: NodeIndex, id: Id)
    requires Indexed(edges, x) && NodesSeen(nodes, seen, x, y) && id in nodes && id !in seen
    ensures if Rejected(x, y, id, nodes[id]) then !(LocatorsDistinct(nodes) && OneOwner(nodes, edges))
            else NodesSeen(nodes, seen[id := nodes[id]], x, AddBinding(y, nodes[id], id))
  {
    if Taken(y, nodes[id]) {
      TakenTwice(nodes, seen, y, id);
    } else if Rejected(x, y, id, nodes[id]) {
      UncountedIsUnowned(nodes, edges, x, id);
    } else {
      LocatedMore(seen, y, id, nodes[id]);
    }
  }

  lemma AllNodesSeen(nodes: map<Id, Node>, edges: map<Id, Edge>, seen: map<Id, Node>, x: EdgeIndex, y: NodeIndex)
    requires Indexed(edges, x) && NodesSeen(nodes, seen, x, y) && seen.Keys == nodes.Keys
    ensures LocatorsDistinct(nodes) && OneOwner(nodes, edges) && Located(nodes, y)
  {
    assert seen == nodes;
    NodesRead(nodes, edges, x, y);
  }

  // Reads the nodes in any order.
  method ReadNodes(nodes: map<Id, Node>, ghost edges: map<Id, Edge>, x: EdgeIndex) returns (r: Result<NodeIndex>)
    requires Indexed(edges, x)
    ensures r.Success? <==> LocatorsDistinct(nodes) && OneOwner(nodes, edges)
    ensures r.Success? ==> Located(nodes, r.value)
  {
    var y := NodeIndex(map[], map[]);
    var todo := nodes.Keys;
    ghost var seen: map<Id, Node> := map[];
    while todo != {}
      invariant todo <= nodes.Keys && seen.Keys == nodes.Keys - todo
      invariant NodesSeen(nodes, seen, x, y)
      decreases |todo|
    {
      var id :| id in todo;
      todo := todo - {id};
      SeeNode(nodes, edges, seen, x, y, id);
      if Rejected(x, y, id, nodes[id]) {
        return Failure(Consistency);
      }
      y := AddBinding(y, nodes[id], id);
      seen := seen[id := nodes[id]];
    }
    AllNodesSeen(nodes, edges, seen, x, y);
    return Success(y);
  }

  // ----- the caller schema

  // Every Definition has its binding and there are no others.
  method MatchDefinitions(schema: Schema, ghost nodes: map<Id, Node>, y: NodeIndex) returns (r: Result<map<Id, Ref>>)
    requires Located(nodes, y)
    ensures r.Success? <==> DefinitionsCovered(schema, nodes)
    ensures r.Success? ==> y.bindings.Keys == schema.Keys
    ensures r.Success? ==> forall id :: id in r.value <==> id in nodes && nodes[id].category == DefinitionBinding
    ensures r.Success? ==> forall id :: id in r.value ==> r.value[id] == BindingRef(nodes[id])
  {
    if DefinitionsCovered(schema, nodes) {
      assert y.bindings.Keys == schema.Keys;
    }
    if |y.bindings| != |schema| {
      assert |y.bindings| == |y.bindings.Keys| && |schema| == |schema.Keys|;
      return Failure(Consistency);
    }
    var definitionByID: map<Id, Ref> := map[];
    var todo := schema.Keys;
    while todo != {}
      invariant todo <= schema.Keys
      invariant forall r :: r in schema && r !in todo ==> r in y.bindings && y.bindings[r] in definitionByID
      invariant forall id :: id in definitionByID ==>
        id in nodes && nodes[id].category == DefinitionBinding && definitionByID[id] == BindingRef(nodes[id])
      decreases |todo|
    {
      var ref :| ref in todo;
      todo := todo - {ref};
      if ref !in y.bindings {
        return Failure(Consistency);
      }
      definitionByID := definitionByID[y.bindings[ref] := ref];
    }
    assert schema.Keys <= y.bindings.Keys;
    assert y.bindings.Keys == schema.Keys by {
      SameSize(schema.Keys, y.bindings.Keys);
    }
    return Success(definitionByID);
  }

  // ----- Property bindings

  type PropertyIds = map<Ref, map<string, Id>>

  function IdsUnder(ids: PropertyIds, r: Ref): map<string, Id> {
    if r in ids then ids[r] else map[]
  }

  function OwnerRef(x: EdgeIndex, definitionByID: map<Id, Ref>, p: Id): Option<Ref> {
    if p in x.owner && x.owner[p] in definitionByID then Some(definitionByID[x.owner[p]]) else None
  }

  // definitionByID names exactly the Definition nodes.
  ghost predicate NamesDefinitions(nodes: map<Id, Node>, definitionByID: map<Id, Ref>) {
    && (forall id :: id in definitionByID <==> id in nodes && nodes[id].category == DefinitionBinding)
    && (forall id :: id in definitionByID ==> definitionByID[id] == BindingRef(nodes[id]))
  }

  // The owner table says which Definition a Property binding belongs to.
  lemma OwnerRefMeans(nodes: map<Id, Node>, edges: map<Id, Edge>, x: EdgeIndex, definitionByID: map<Id, Ref>, p: Id)
    requires WellShaped(nodes, edges) && EdgesBound(nodes, edges) && OneOwner(nodes, edges)
    requires OwnersIndexed(edges, x) && NamesDefinitions(nodes, definitionByID)
    requires p in nodes && nodes[p].category == PropertyBinding
    ensures OwnerRef(x, definitionByID, p).Some?
    ensures forall r, name :: PropertyBound(nodes, edges, r, name, p) <==>
              OwnerRef(x, definitionByID, p) == Some(r) && nodes[p].name == name
  {
    var i: Id, d: Id :| Owner(edges, p, d, i);
    assert edges[i].kind == PropertyOf && EdgeTyped(nodes, edges[i]);
    assert p in x.owner && Carries(edges, Edge(PropertyOf, p, x.owner[p]));
    var j :| j in edges && edges[j] == Edge(PropertyOf, p, x.owner[p]);
    assert Owner(edges, p, x.owner[p], j);
    assert x.owner[p] == d;
    forall r, name
      ensures PropertyBound(nodes, edges, r, name, p) <==>
              OwnerRef(x, definitionByID, p) == Some(r) && nodes[p].name == name
    {
      if PropertyBound(nodes, edges, r, name, p) {
        var k: Id, e: Id :| Owner(edges, p, e, k) && BoundTo(nodes, r, e);
        assert k == i;
      }
      if OwnerRef(x, definitionByID, p) == Some(r) && nodes[p].name == name {
        assert Owner(edges, p, d, i) && BoundTo(nodes, r, d);
      }
    }
  }

  // ids lists exactly the Property bindings read so far, each under its Definition and name.
  ghost predicate Listed(schema: Schema, nodes: map<Id, Node>, x: EdgeIndex, definitionByID: map<Id, Ref>, seen: set<Id>, ids: PropertyIds) {
    && (forall r, name {:trigger IdsUnder(ids, r)[name]} :: name in IdsUnder(ids, r) ==>
         && r in schema && name in PropertyNames(schema[r].properties)
         && IdsUnder(ids, r)[name] in seen && IdsUnder(ids, r)[name] in nodes
         && nodes[IdsUnder(ids, r)[name]].category == PropertyBinding && nodes[IdsUnder(ids, r)[name]].name == name
         && OwnerRef(x, definitionByID, IdsUnder(ids, r)[name]) == Some(r))
    && (forall p {:trigger OwnerRef(x, definitionByID, p)} ::
         p in seen && p in nodes && nodes[p].category == PropertyBinding && OwnerRef(x, definitionByID, p).Some? ==>
           var r := OwnerRef(x, definitionByID, p).value;
           nodes[p].name in IdsUnder(ids, r) && IdsUnder(ids, r)[nodes[p].name] == p)
  }

  function AddProperty(ids: PropertyIds, r: Ref, name: string, p: Id): PropertyIds {
    ids[r := IdsUnder(ids, r)[name := p]]
  }

  lemma ListMore(schema: Schema, nodes: map<Id, Node>, x: EdgeIndex, definitionByID: map<Id, Ref>, seen: set<Id>, ids: PropertyIds,
                 p: Id, r: Ref)
    requires Listed(schema, nodes, x, definitionByID, seen, ids)
    requires p in nodes && nodes[p].category == PropertyBinding && OwnerRef(x, definitionByID, p) == Some(r)
    requires r in schema && nodes[p].name in PropertyNames(schema[r].properties) && nodes[p].name !in IdsUnder(ids, r)
    ensures Listed(schema, nodes, x, definitionByID, seen + {p}, AddProperty(ids, r, nodes[p].name, p))
  {
    var more := AddProperty(ids, r, nodes[p].name, p);
    forall q ensures IdsUnder(more, q) == if q == r then IdsUnder(ids, r)[nodes[p].name := p] else IdsUnder(ids, q) {
    }
  }

  lemma ListSkip(schema: Schema, nodes: map<Id, Node>, x: EdgeIndex, definitionByID: map<Id, Ref>, seen: set<Id>, ids: PropertyIds, p: Id)
    requires Listed(schema, nodes, x, definitionByID, seen, ids)
    requires p in nodes && nodes[p].category != PropertyBinding
    ensures Listed(schema, nodes, x, definitionByID, seen + {p}, ids)
  {
    forall r, name | name in IdsUnder(ids, r) ensures IdsUnder(ids, r)[name] in seen + {p} {
      assert IdsUnder(ids, r)[name] in seen;
    }
  }

  // The loop cannot place the Property node p.
  predicate RejectedProperty(schema: Schema, nodes: map<Id, Node>, x: EdgeIndex, definitionByID: map<Id, Ref>, ids: PropertyIds, p: Id)
    requires p in nodes
  {
    var r := OwnerRef(x, definitionByID, p);
    r.None? || r.value !in schema || FindProperty(schema[r.value].properties, nodes[p].name).None?
    || nodes[p].name in IdsUnder(ids, r.value)
  }

  // Some Property node could not be placed beside the ones before it.
  ghost predicate Unplaceable(schema: Schema, nodes: map<Id, Node>, x: EdgeIndex, definitionByID: map<Id, Ref>, seen: set<Id>,
                              ids: PropertyIds, p: Id) {
    && Listed(schema, nodes, x, definitionByID, seen, ids)
    && p in nodes && p !in seen && nodes[p].category == PropertyBinding
    && RejectedProperty(schema, nodes, x, definitionByID, ids, p)
  }

  // Reads the Property nodes in any order and says where each belongs.
  method ReadProperties(schema: Schema, nodes: map<Id, Node>, x: EdgeIndex, definitionByID: map<Id, Ref>)
      returns (r: Result<PropertyIds>, ghost seen: set<Id>, ghost listed: PropertyIds, ghost culprit: Id)
    ensures r.Success? ==> Listed(schema, nodes, x, definitionByID, nodes.Keys, r.value)
    ensures r.Failure? ==> Unplaceable(schema, nodes, x, definitionByID, seen, listed, culprit)
  {
    var ids: PropertyIds := map[];
    var todo := nodes.Keys;
    seen, listed, culprit := {}, map[], 0;
    assert Listed(schema, nodes, x, definitionByID, {}, ids) by {
      forall r ensures IdsUnder(ids, r) == map[] {
      }
    }
    while todo != {}
      invariant todo <= nodes.Keys && seen == nodes.Keys - todo
      invariant Listed(schema, nodes, x, definitionByID, seen, ids)
      decreases |todo|
    {
      var p :| p in todo;
      todo := todo - {p};
      if nodes[p].category != PropertyBinding {
        ListSkip(schema, nodes, x, definitionByID, seen, ids, p);
      } else {
        if RejectedProperty(schema, nodes, x, definitionByID, ids, p) {
          return Failure(Consistency), seen, ids, p;
        }
        var owner := OwnerRef(x, definitionByID, p).value;
        ListMore(schema, nodes, x, definitionByID, seen, ids, p, owner);
        ids := AddProperty(ids, owner, nodes[p].name, p);
      }
      seen := seen + {p};
    }
    assert seen == nodes.Keys;
    return Success(ids), seen, ids, culprit;
  }

  lemma RejectedUncovered(schema: Schema, nodes: map<Id, Node>, edges: map<Id, Edge>, x: EdgeIndex, definitionByID: map<Id, Ref>,
                          seen: set<Id>, ids: PropertyIds, p: Id)
    requires WellShaped(nodes, edges) && EdgesBound(nodes, edges) && OneOwner(nodes, edges)
    requires OwnersIndexed(edges, x) && NamesDefinitions(nodes, definitionByID)
    requires Unplaceable(schema, nodes, x, definitionByID, seen, ids, p)
    ensures !PropertiesCovered(schema, nodes, edges)
  {
    OwnerRefMeans(nodes, edges, x, definitionByID, p);
    var r, name := OwnerRef(x, definitionByID, p).value, nodes[p].name;
    assert PropertyBound(nodes, edges, r, name, p);
    if r in schema && name in IdsUnder(ids, r) {
      var q := IdsUnder(ids, r)[name];
      OwnerRefMeans(nodes, edges, x, definitionByID, q);
      assert PropertyBound(nodes, edges, r, name, q) && q != p;
    }
  }

  // When every Definition has as many identities as Properties, the Properties are covered.
  ghost predicate CountsAgree(schema: Schema, ids: PropertyIds) {
    forall r :: r in schema ==> |IdsUnder(ids, r)| == |schema[r].properties|
  }

  lemma {:induction false} NamesCount(properties: seq<Property>)
    requires DistinctProperties(properties)
    ensures |PropertyNames(properties)| == |properties|
  {
    if properties == [] {
      assert PropertyNames(properties) == {};
    } else {
      NamesCount(properties[1..]);
      assert properties == [properties[0]] + properties[1..];
      assert PropertyNames(properties) == {properties[0].name} + PropertyNames(properties[1..]);
      assert properties[0].name !in PropertyNames(properties[1..]);
    }
  }

  lemma CountedNames(schema: Schema, nodes: map<Id, Node>, x: EdgeIndex, definitionByID: map<Id, Ref>, ids: PropertyIds, r: Ref)
    requires ValidSchema(schema) && Listed(schema, nodes, x, definitionByID, nodes.Keys, ids) && r in schema
    ensures IdsUnder(ids, r).Keys <= PropertyNames(schema[r].properties)
    ensures |IdsUnder(ids, r)| == |schema[r].properties| <==> IdsUnder(ids, r).Keys == PropertyNames(schema[r].properties)
  {
    var keys, names := IdsUnder(ids, r).Keys, PropertyNames(schema[r].properties);
    NamesCount(schema[r].properties);
    forall name | name in keys ensures name in names {
      assert IdsUnder(ids, r)[name] in nodes;
    }
    assert |IdsUnder(ids, r)| == |keys|;
    if |keys| == |names| {
      SameSize(keys, names);
    }
  }

  lemma ListedMeansBound(schema: Schema, nodes: map<Id, Node>, edges: map<Id, Edge>, x: EdgeIndex, definitionByID: map<Id, Ref>,
                         ids: PropertyIds, r: Ref, name: string, p: Id)
    requires WellShaped(nodes, edges) && EdgesBound(nodes, edges) && OneOwner(nodes, edges)
    requires OwnersIndexed(edges, x) && NamesDefinitions(nodes, definitionByID)
    requires Listed(schema, nodes, x, definitionByID, nodes.Keys, ids)
    ensures PropertyBound(nodes, edges, r, name, p) <==> name in IdsUnder(ids, r) && IdsUnder(ids, r)[name] == p
  {
    if p in nodes && nodes[p].category == PropertyBinding {
      OwnerRefMeans(nodes, edges, x, definitionByID, p);
    }
  }

  // ids is the table of all Property bindings.
  ghost predicate Tabulates(nodes: map<Id, Node>, edges: map<Id, Edge>, ids: PropertyIds) {
    forall r, name, p: Id {:trigger PropertyBound(nodes, edges, r, name, p)} ::
      PropertyBound(nodes, edges, r, name, p) <==> name in IdsUnder(ids, r) && IdsUnder(ids, r)[name] == p
  }

  lemma CoveredByCounts(schema: Schema, nodes: map<Id, Node>, edges: map<Id, Edge>, x: EdgeIndex, definitionByID: map<Id, Ref>,
                        ids: PropertyIds)
    requires ValidSchema(schema) && Listed(schema, nodes, x, definitionByID, nodes.Keys, ids) && Tabulates(nodes, edges, ids)
    requires CountsAgree(schema, ids)
    ensures PropertiesCovered(schema, nodes, edges)
  {
    forall r, name | r in schema && name in PropertyNames(schema[r].properties)
      ensures exists p: Id :: PropertyBound(nodes, edges, r, name, p)
    {
      CountedNames(schema, nodes, x, definitionByID, ids, r);
      assert PropertyBound(nodes, edges, r, name, IdsUnder(ids, r)[name]);
    }
    forall r, name, p: Id | PropertyBound(nodes, edges, r, name, p)
      ensures r in schema && name in PropertyNames(schema[r].properties)
    {
      assert IdsUnder(ids, r)[name] == p;
    }
  }

  lemma CoveredIsListed(schema: Schema, nodes: map<Id, Node>, edges: map<Id, Edge>, ids: PropertyIds, r: Ref, name: string)
    requires Tabulates(nodes, edges, ids) && PropertiesCovered(schema, nodes, edges)
    requires r in schema && name in PropertyNames(schema[r].properties)
    ensures name in IdsUnder(ids, r)
  {
    var p: Id :| PropertyBound(nodes, edges, r, name, p);
  }

  lemma CountOfListed(schema: Schema, nodes: map<Id, Node>, x: EdgeIndex, definitionByID: map<Id, Ref>, ids: PropertyIds, r: Ref)
    requires ValidSchema(schema) && Listed(schema, nodes, x, definitionByID, nodes.Keys, ids) && r in schema
    requires forall name :: name in PropertyNames(schema[r].properties) ==> name in IdsUnder(ids, r)
    ensures |IdsUnder(ids, r)| == |schema[r].properties|
  {
    CountedNames(schema, nodes, x, definitionByID, ids, r);
    assert IdsUnder(ids, r).Keys == PropertyNames(schema[r].properties);
  }

  lemma CountsOfCovered(schema: Schema, nodes: map<Id, Node>, edges: map<Id, Edge>, x: EdgeIndex, definitionByID: map<Id, Ref>,
                        ids: PropertyIds)
    requires ValidSchema(schema) && Listed(schema, nodes, x, definitionByID, nodes.Keys, ids) && Tabulates(nodes, edges, ids)
    requires PropertiesCovered(schema, nodes, edges)
    ensures CountsAgree(schema, ids)
  {
    forall r | r in schema ensures |IdsUnder(ids, r)| == |schema[r].properties| {
      forall name | name in PropertyNames(schema[r].properties) ensures name in IdsUnder(ids, r) {
        CoveredIsListed(schema, nodes, edges, ids, r, name);
      }
      CountOfListed(schema, nodes, x, definitionByID, ids, r);
    }
  }

  // ----- records

  method CheckCounts(schema: Schema, ids: PropertyIds) returns (ok: bool)
    ensures ok <==> CountsAgree(schema, ids)
  {
    var todo := schema.Keys;
    while todo != {}
      invariant todo <= schema.Keys
      invariant forall r :: r in schema && r !in todo ==> |IdsUnder(ids, r)| == |schema[r].properties|
      decreases |todo|
    {
      var r :| r in todo;
      todo := todo - {r};
      if |IdsUnder(ids, r)| != |schema[r].properties| {
        return false;
      }
    }
    return true;
  }

  // A Property with the texts of its binding.
  function Titled(p: Property, nodes: map<Id, Node>, ids: map<string, Id>): Property {
    if p.name in ids && ids[p.name] in nodes then
      p.(title := nodes[ids[p.name]].title, description := nodes[ids[p.name]].description)
    else p
  }

  // A Definition with the texts of its bindings.
  function Annotated(d: Definition, nodes: map<Id, Node>, id: Id, ids: map<string, Id>): Definition
    requires id in nodes
  {
    d.(title := nodes[id].title, description := nodes[id].description,
       properties := seq(|d.properties|, i requires 0 <= i < |d.properties| => Titled(d.properties[i], nodes, ids)))
  }

  method BuildDefinitions(schema: Schema, nodes: map<Id, Node>, bindings: map<Ref, Id>, ids: PropertyIds)
      returns (records: map<Ref, Record>)
    requires bindings.Keys == schema.Keys && forall r :: r in bindings ==> bindings[r] in nodes
    ensures records.Keys == schema.Keys
    ensures forall r :: r in schema ==>
              records[r] == DefinitionRecord(bindings[r], Annotated(schema[r], nodes, bindings[r], IdsUnder(ids, r)), IdsUnder(ids, r))
  {
    records := map[];
    var todo := schema.Keys;
    while todo != {}
      invariant todo <= schema.Keys && records.Keys == schema.Keys - todo
      invariant forall r :: r in records ==>
        records[r] == DefinitionRecord(bindings[r], Annotated(schema[r], nodes, bindings[r], IdsUnder(ids, r)), IdsUnder(ids, r))
      decreases |todo|
    {
      var r :| r in todo;
      todo := todo - {r};
      var definition, id := schema[r], bindings[r];
      var properties: seq<Property> := [];
      var i := 0;
      while i < |definition.properties|
        invariant 0 <= i <= |definition.properties| && |properties| == i
        invariant forall k :: 0 <= k < i ==> properties[k] == Titled(definition.properties[k], nodes, IdsUnder(ids, r))
      {
        properties := properties + [Titled(definition.properties[i], nodes, IdsUnder(ids, r))];
        i := i + 1;
      }
      definition := definition.(title := nodes[id].title, description := nodes[id].description, properties := properties);
      assert definition == Annotated(schema[r], nodes, id, IdsUnder(ids, r));
      records := records[r := DefinitionRecord(id, definition, IdsUnder(ids, r))];
    }
  }

  // The members an includes edge to each target stands for, in the order of their Refs.
  ghost predicate Members(nodes: map<Id, Node>, targets: seq<Id>, includes: seq<Reference>) {
    && Distinct(includes) && Ordered(includes, MemberKey)
    && (forall m :: m in includes <==> exists t :: t in targets && t in nodes && m == To(BindingRef(nodes[t])))
  }

  lemma DistinctMembers(nodes: map<Id, Node>, targets: seq<Id>, includes: seq<Reference>)
    requires LocatorsDistinct(nodes) && Distinct(targets) && |includes| == |targets|
    requires forall i :: 0 <= i < |targets| ==> targets[i] in nodes && nodes[targets[i]].category != PropertyBinding
    requires forall i :: 0 <= i < |targets| ==> includes[i] == To(BindingRef(nodes[targets[i]]))
    ensures Distinct(includes)
  {
  }

  lemma SortedMembers(nodes: map<Id, Node>, targets: seq<Id>, raw: seq<Reference>, includes: seq<Reference>)
    requires LocatorsDistinct(nodes) && Distinct(targets) && |raw| == |targets|
    requires forall i :: 0 <= i < |targets| ==> targets[i] in nodes && nodes[targets[i]].category != PropertyBinding
    requires forall i :: 0 <= i < |targets| ==> raw[i] == To(BindingRef(nodes[targets[i]]))
    requires multiset(includes) == multiset(raw) && Ordered(includes, MemberKey)
    ensures Members(nodes, targets, includes)
  {
    DistinctMembers(nodes, targets, raw);
    forall m ensures multiset(includes)[m] <= 1 {
      CountsOnce(raw, m);
    }
    DistinctByCount(includes);
    forall m ensures m in includes <==> exists t :: t in targets && t in nodes && m == To(BindingRef(nodes[t])) {
      assert m in includes <==> m in multiset(includes);
      assert m in raw <==> m in multiset(raw);
      if m in raw {
        var i :| 0 <= i < |raw| && raw[i] == m;
        assert targets[i] in targets;
      }
      if t :| t in targets && t in nodes && m == To(BindingRef(nodes[t])) {
        var i :| 0 <= i < |targets| && targets[i] == t;
        assert raw[i] == m;
      }
    }
  }

  method ReadMembers(nodes: map<Id, Node>, definitionByID: map<Id, Ref>, targets: seq<Id>) returns (r: Result<seq<Reference>>)
    requires LocatorsDistinct(nodes) && NamesDefinitions(nodes, definitionByID) && Distinct(targets)
    requires forall t :: t in targets ==> t in nodes && nodes[t].category != PropertyBinding
    ensures r.Success? && Members(nodes, targets, r.value)
  {
    var raw: seq<Reference> := [];
    var i := 0;
    while i < |targets|
      invariant 0 <= i <= |targets| && |raw| == i
      invariant forall k :: 0 <= k < i ==> targets[k] in nodes && raw[k] == To(BindingRef(nodes[targets[k]]))
    {
      var t := targets[i];
      if t in nodes && nodes[t].category == DomainNode {
        raw := raw + [To(Ref(DomainKind, nodes[t].name))];
      } else if t in definitionByID {
        raw := raw + [To(definitionByID[t])];
      } else {
        return Failure(Consistency);
      }
      i := i + 1;
    }
    var includes := SortSlice(raw, MemberKey);
    SortedMembers(nodes, targets, raw, includes);
    return Success(includes);
  }

  ghost predicate IsDomainRecord(nodes: map<Id, Node>, x: EdgeIndex, id: Id, record: Record) {
    && id in nodes && record.DomainRecord? && record.id == id
    && record.domain.name == nodes[id].name && record.domain.title == nodes[id].title
    && record.domain.description == nodes[id].description
    && Members(nodes, Targets(x, id), record.domain.includes)
  }

  method BuildDomains(nodes: map<Id, Node>, ghost edges: map<Id, Edge>, domains: map<Ref, Id>, x: EdgeIndex, definitionByID: map<Id, Ref>)
      returns (r: Result<map<Ref, Record>>)
    requires WellShaped(nodes, edges) && EdgesBound(nodes, edges) && IncludesIndexed(edges, x)
    requires LocatorsDistinct(nodes) && NamesDefinitions(nodes, definitionByID)
    requires forall q :: q in domains ==> domains[q] in nodes
    ensures r.Success? && r.value.Keys == domains.Keys
    ensures forall q :: q in domains ==> IsDomainRecord(nodes, x, domains[q], r.value[q])
  {
    var records: map<Ref, Record> := map[];
    var todo := domains.Keys;
    while todo != {}
      invariant todo <= domains.Keys && records.Keys == domains.Keys - todo
      invariant forall q :: q in records ==> IsDomainRecord(nodes, x, domains[q], records[q])
      decreases |todo|
    {
      var q :| q in todo;
      todo := todo - {q};
      var id := domains[q];
      forall t | t in Targets(x, id) ensures t in nodes && nodes[t].category != PropertyBinding {
        assert Carries(edges, Edge(Includes, id, t));
        var i :| i in edges && edges[i] == Edge(Includes, id, t);
        assert EdgeTyped(nodes, edges[i]);
      }
      assert Distinct(Targets(x, id));
      var members := ReadMembers(nodes, definitionByID, Targets(x, id));
      if members.Failure? {
        return Failure(Consistency);
      }
      var node := nodes[id];
      records := records[q := DomainRecord(id, Domain(node.name, node.title, node.description, members.value))];
    }
    return Success(records);
  }

  // ----- the records are the snapshot the graph holds

  ghost predicate DomainMatches(nodes: map<Id, Node>, edges: map<Id, Edge>, r: Ref, record: Record) {
    && record.DomainRecord? && record.id in nodes && nodes[record.id].category == DomainNode
    && BindingRef(nodes[record.id]) == r && record.domain.name == nodes[record.id].name
    && record.domain.title == nodes[record.id].title && record.domain.description == nodes[record.id].description
    && Distinct(record.domain.includes) && Ordered(record.domain.includes, MemberKey)
    && (forall m {:trigger m in record.domain.includes} ::
         m in record.domain.includes <==> MemberVia(nodes, edges, record.id, m))
  }

  ghost predicate MemberVia(nodes: map<Id, Node>, edges: map<Id, Edge>, d: Id, m: Reference) {
    exists t: Id :: Carries(edges, Edge(Includes, d, t)) && t in nodes && m == To(BindingRef(nodes[t]))
  }

  ghost predicate DefinitionMatches(schema: Schema, nodes: map<Id, Node>, edges: map<Id, Edge>, r: Ref, record: Record) {
    && record.DefinitionRecord? && r in schema && BoundTo(nodes, r, record.id)
    && record.definition == Annotated(schema[r], nodes, record.id, record.propertyIds)
    && record.propertyIds.Keys == PropertyNames(schema[r].properties)
    && (forall name, p: Id {:trigger PropertyBound(nodes, edges, r, name, p)} ::
         PropertyBound(nodes, edges, r, name, p) <==> name in record.propertyIds && record.propertyIds[name] == p)
  }

  ghost predicate RecordMatches(schema: Schema, nodes: map<Id, Node>, edges: map<Id, Edge>, r: Ref, record: Record) {
    if record.DomainRecord? then DomainMatches(nodes, edges, r, record) else DefinitionMatches(schema, nodes, edges, r, record)
  }

  ghost predicate RecordsMatch(schema: Schema, nodes: map<Id, Node>, edges: map<Id, Edge>, s: Snapshot) {
    && s.relationships == edges
    && (forall r {:trigger RecordMatches(schema, nodes, edges, r, s.records[r])} :: r in s.records ==>
         RecordMatches(schema, nodes, edges, r, s.records[r]))
    && (forall r :: r in schema ==> r in s.records)
    && (forall id :: id in nodes && nodes[id].category == DomainNode ==> BindingRef(nodes[id]) in s.records)
  }

  function IdsOf(s: Snapshot): Ids {
    (map r | r in s.records :: Obj(r) := s.records[r].id) +
    (map r, name | r in s.records && s.records[r].DefinitionRecord? && name in s.records[r].propertyIds ::
       Prop(r, name) := s.records[r].propertyIds[name])
  }

  lemma IdsOfGiven(s: Snapshot)
    ensures GivesIds(s, IdsOf(s))
  {
  }

  lemma AnnotatedNames(d: Definition, nodes: map<Id, Node>, id: Id, ids: map<string, Id>)
    requires id in nodes
    ensures Bare(Annotated(d, nodes, id, ids)) == Bare(d)
    ensures PropertyNames(Annotated(d, nodes, id, ids).properties) == PropertyNames(d.properties)
    ensures DistinctProperties(d.properties) ==> DistinctProperties(Annotated(d, nodes, id, ids).properties)
  {
    var a := Annotated(d, nodes, id, ids);
    assert Bare(a).properties == Bare(d).properties by {
      forall i | 0 <= i < |d.properties| ensures Bare(a).properties[i] == Bare(d).properties[i] {
      }
    }
    BareNames(a);
    BareNames(d);
  }

  lemma RecordedObject(schema: Schema, nodes: map<Id, Node>, edges: map<Id, Edge>, s: Snapshot, r: Ref)
    requires ValidSchema(schema) && WellShaped(nodes, edges) && RecordsMatch(schema, nodes, edges, s) && r in s.records
    ensures r == RefOf(ObjectsOf(s)[r]) && (ObjectsOf(s)[r].DefinitionValue? ==> IsDefinition(r.kind))
    ensures s.records[r].id in nodes && BindingRef(nodes[s.records[r].id]) == r
    ensures nodes[s.records[r].id].category != PropertyBinding
    ensures Content(ObjectsOf(s), Obj(r)) == nodes[s.records[r].id]
  {
    assert RecordMatches(schema, nodes, edges, r, s.records[r]);
  }

  lemma RecordedProperty(schema: Schema, nodes: map<Id, Node>, edges: map<Id, Edge>, s: Snapshot, r: Ref, name: string)
    requires ValidSchema(schema) && WellShaped(nodes, edges) && RecordsMatch(schema, nodes, edges, s)
    requires HasProperty(ObjectsOf(s), r, name)
    ensures r in s.records && s.records[r].DefinitionRecord? && name in s.records[r].propertyIds
    ensures var p := s.records[r].propertyIds[name];
            PropertyBound(nodes, edges, r, name, p) && Content(ObjectsOf(s), Prop(r, name)) == nodes[p]
  {
    assert RecordMatches(schema, nodes, edges, r, s.records[r]);
    var record := s.records[r];
    AnnotatedNames(schema[r], nodes, record.id, record.propertyIds);
    var p := record.propertyIds[name];
    assert PropertyBound(nodes, edges, r, name, p);
    var q := FindProperty(record.definition.properties, name).value;
    var i :| 0 <= i < |record.definition.properties| && record.definition.properties[i] == q;
    assert q == Titled(schema[r].properties[i], nodes, record.propertyIds);
  }

  lemma RecordedNames(schema: Schema, nodes: map<Id, Node>, edges: map<Id, Edge>, s: Snapshot)
    requires ValidSchema(schema) && WellShaped(nodes, edges) && RecordsMatch(schema, nodes, edges, s)
    ensures WellNamed(ObjectsOf(s)) && Covered(s) && MatchesSchema(schema, ObjectsOf(s))
  {
    forall r | r in s.records
      ensures r == RefOf(ObjectsOf(s)[r]) && (ObjectsOf(s)[r].DefinitionValue? ==> IsDefinition(r.kind))
      ensures s.records[r].DefinitionRecord? ==>
                && s.records[r].propertyIds.Keys == PropertyNames(s.records[r].definition.properties)
                && r in schema && Bare(s.records[r].definition) == schema[r]
    {
      RecordedObject(schema, nodes, edges, s, r);
      assert RecordMatches(schema, nodes, edges, r, s.records[r]);
      if s.records[r].DefinitionRecord? {
        AnnotatedNames(schema[r], nodes, s.records[r].id, s.records[r].propertyIds);
      }
    }
    forall r | r in schema ensures s.records[r].DefinitionRecord? {
      assert RecordMatches(schema, nodes, edges, r, s.records[r]);
    }
  }

  lemma RecordedMember(schema: Schema, nodes: map<Id, Node>, edges: map<Id, Edge>, s: Snapshot, r: Ref, m: Reference)
    requires WellShaped(nodes, edges) && WellBound(schema, nodes, edges) && RecordsMatch(schema, nodes, edges, s)
    requires r in s.records && s.records[r].DomainRecord? && m in s.records[r].domain.includes
    ensures m.To? && m.ref in s.records
  {
    assert RecordMatches(schema, nodes, edges, r, s.records[r]);
    assert MemberVia(nodes, edges, s.records[r].id, m);
    var t: Id :| Carries(edges, Edge(Includes, s.records[r].id, t)) && t in nodes && m == To(BindingRef(nodes[t]));
    var i :| i in edges && edges[i] == Edge(Includes, s.records[r].id, t);
    assert EdgeTyped(nodes, edges[i]);
  }

  lemma RecordedShapes(schema: Schema, nodes: map<Id, Node>, edges: map<Id, Edge>, s: Snapshot)
    requires ValidSchema(schema) && WellShaped(nodes, edges) && WellBound(schema, nodes, edges) && RecordsMatch(schema, nodes, edges, s)
    ensures WellFormed(ObjectsOf(s))
  {
    RecordedNames(schema, nodes, edges, s);
    var objects := ObjectsOf(s);
    forall r | r in objects ensures WellFormedObject(objects, objects[r]) {
      assert RecordMatches(schema, nodes, edges, r, s.records[r]);
      if s.records[r].DefinitionRecord? {
        AnnotatedNames(schema[r], nodes, s.records[r].id, s.records[r].propertyIds);
      } else {
        forall m | m in s.records[r].domain.includes ensures m.To? && m.ref in objects {
          RecordedMember(schema, nodes, edges, s, r, m);
        }
      }
    }
  }

  lemma RecordedNodes(schema: Schema, nodes: map<Id, Node>, edges: map<Id, Edge>, s: Snapshot)
    requires ValidSchema(schema) && WellShaped(nodes, edges) && WellBound(schema, nodes, edges) && RecordsMatch(schema, nodes, edges, s)
    ensures NodesHold(nodes, ObjectsOf(s), IdsOf(s))
  {
    var objects, ids := ObjectsOf(s), IdsOf(s);
    RecordedNames(schema, nodes, edges, s);
    IdsOfGiven(s);
    forall e | HasEntity(objects, e) ensures NodeHolds(nodes, objects, ids, e) {
      match e
      case Obj(r) => RecordedObject(schema, nodes, edges, s, r);
      case Prop(r, name) => RecordedProperty(schema, nodes, edges, s, r, name);
    }
    forall e | e in ids ensures HasEntity(objects, e) {
    }
    forall a, b | a in ids && b in ids && ids[a] == ids[b] ensures a == b {
      IdsApart(schema, nodes, edges, s, a, b);
    }
    forall id | id in nodes ensures Names(ids, id) {
      NodeNamed(schema, nodes, edges, s, id);
    }
  }

  lemma IdsApart(schema: Schema, nodes: map<Id, Node>, edges: map<Id, Edge>, s: Snapshot, a: Entity, b: Entity)
    requires ValidSchema(schema) && WellShaped(nodes, edges) && WellBound(schema, nodes, edges) && RecordsMatch(schema, nodes, edges, s)
    requires a in IdsOf(s) && b in IdsOf(s) && IdsOf(s)[a] == IdsOf(s)[b]
    ensures a == b
  {
    RecordedNames(schema, nodes, edges, s);
    IdsOfGiven(s);
    match a {
      case Obj(r) => RecordedObject(schema, nodes, edges, s, r);
      case Prop(r, name) => RecordedProperty(schema, nodes, edges, s, r, name);
    }
    match b {
      case Obj(r) => RecordedObject(schema, nodes, edges, s, r);
      case Prop(r, name) => RecordedProperty(schema, nodes, edges, s, r, name);
    }
    if a.Prop? && b.Prop? {
      OneDefinition(nodes, edges, a.ref, a.name, b.ref, b.name, IdsOf(s)[a]);
    }
  }

  lemma OneDefinition(nodes: map<Id, Node>, edges: map<Id, Edge>, r: Ref, name: string, q: Ref, other: string, p: Id)
    requires OneOwner(nodes, edges)
    requires PropertyBound(nodes, edges, r, name, p) && PropertyBound(nodes, edges, q, other, p)
    ensures r == q && name == other
  {
    var i: Id, d: Id :| Owner(edges, p, d, i) && BoundTo(nodes, r, d);
    var j: Id, e: Id :| Owner(edges, p, e, j) && BoundTo(nodes, q, e);
    assert i == j;
  }

  lemma NodeNamed(schema: Schema, nodes: map<Id, Node>, edges: map<Id, Edge>, s: Snapshot, id: Id)
    requires ValidSchema(schema) && WellShaped(nodes, edges) && WellBound(schema, nodes, edges) && RecordsMatch(schema, nodes, edges, s)
    requires id in nodes
    ensures Names(IdsOf(s), id)
  {
    IdsOfGiven(s);
    var r := BindingRef(nodes[id]);
    if nodes[id].category == PropertyBinding {
      var i: Id, d: Id :| Owner(edges, id, d, i);
      assert EdgeTyped(nodes, edges[i]);
      var q := BindingRef(nodes[d]);
      assert BoundTo(nodes, q, d);
      assert PropertyBound(nodes, edges, q, nodes[id].name, id);
      assert RecordMatches(schema, nodes, edges, q, s.records[q]);
      RecordedNames(schema, nodes, edges, s);
      assert IdsOf(s)[Prop(q, nodes[id].name)] == id;
    } else {
      RecordedObject(schema, nodes, edges, s, r);
      assert IdsOf(s)[Obj(r)] == id;
    }
  }

  lemma RecordedEdges(schema: Schema, nodes: map<Id, Node>, edges: map<Id, Edge>, s: Snapshot)
    requires ValidSchema(schema) && WellShaped(nodes, edges) && WellBound(schema, nodes, edges) && RecordsMatch(schema, nodes, edges, s)
    ensures EdgesHold(edges, ObjectsOf(s), IdsOf(s))
  {
    var objects, ids := ObjectsOf(s), IdsOf(s);
    forall i, j | i in edges && j in edges && edges[i] == edges[j] ensures i == j {
      if edges[i].kind == PropertyOf {
        assert EdgeTyped(nodes, edges[i]);
        assert Owner(edges, edges[i].start, edges[i].end, i) && Owner(edges, edges[i].start, edges[i].end, j);
      }
    }
    forall i | i in edges ensures Explained(objects, ids, edges[i]) {
      EdgeExplained(schema, nodes, edges, s, i);
    }
    forall l | HasLink(objects, l) ensures LinkHolds(edges, ids, l) {
      LinkCarried(schema, nodes, edges, s, l);
    }
  }

  lemma EdgeExplained(schema: Schema, nodes: map<Id, Node>, edges: map<Id, Edge>, s: Snapshot, i: Id)
    requires ValidSchema(schema) && WellShaped(nodes, edges) && WellBound(schema, nodes, edges) && RecordsMatch(schema, nodes, edges, s)
    requires i in edges
    ensures Explained(ObjectsOf(s), IdsOf(s), edges[i])
  {
    IdsOfGiven(s);
    RecordedNames(schema, nodes, edges, s);
    var edge := edges[i];
    assert EdgeTyped(nodes, edge);
    var r := BindingRef(nodes[edge.end]);
    RecordedObject(schema, nodes, edges, s, r);
    if edge.kind == PropertyOf {
      var name := nodes[edge.start].name;
      assert Owner(edges, edge.start, edge.end, i) && BoundTo(nodes, r, edge.end);
      assert PropertyBound(nodes, edges, r, name, edge.start);
      assert RecordMatches(schema, nodes, edges, r, s.records[r]);
      assert Linked(Owns(r, name), IdsOf(s), edge);
      assert HasLink(ObjectsOf(s), Owns(r, name));
    } else {
      var d := BindingRef(nodes[edge.start]);
      RecordedObject(schema, nodes, edges, s, d);
      assert RecordMatches(schema, nodes, edges, d, s.records[d]);
      assert Carries(edges, Edge(Includes, edge.start, edge.end));
      assert MemberVia(nodes, edges, s.records[d].id, To(r));
      assert Linked(Member(d, r), IdsOf(s), edge);
      assert HasLink(ObjectsOf(s), Member(d, r));
    }
  }

  lemma OwnerCarried(schema: Schema, nodes: map<Id, Node>, edges: map<Id, Edge>, s: Snapshot, r: Ref, name: string)
    requires ValidSchema(schema) && WellShaped(nodes, edges) && WellBound(schema, nodes, edges) && RecordsMatch(schema, nodes, edges, s)
    requires HasProperty(ObjectsOf(s), r, name) && GivesIds(s, IdsOf(s))
    ensures LinkHolds(edges, IdsOf(s), Owns(r, name))
  {
    RecordedProperty(schema, nodes, edges, s, r, name);
    RecordedObject(schema, nodes, edges, s, r);
    var p := s.records[r].propertyIds[name];
    var i: Id, d: Id :| Owner(edges, p, d, i) && BoundTo(nodes, r, d);
    assert d == s.records[r].id;
  }

  lemma MemberEdge(schema: Schema, nodes: map<Id, Node>, edges: map<Id, Edge>, s: Snapshot, d: Ref, t: Ref) returns (i: Id, k: Id)
    requires ValidSchema(schema) && WellShaped(nodes, edges) && RecordsMatch(schema, nodes, edges, s) && HasMember(ObjectsOf(s), d, t)
    ensures d in s.records && i in edges && edges[i] == Edge(Includes, s.records[d].id, k) && k in nodes && BindingRef(nodes[k]) == t
  {
    assert RecordMatches(schema, nodes, edges, d, s.records[d]);
    assert MemberVia(nodes, edges, s.records[d].id, To(t));
    k :| Carries(edges, Edge(Includes, s.records[d].id, k)) && k in nodes && To(t) == To(BindingRef(nodes[k]));
    i :| i in edges && edges[i] == Edge(Includes, s.records[d].id, k);
  }

  lemma MemberCarried(schema: Schema, nodes: map<Id, Node>, edges: map<Id, Edge>, s: Snapshot, d: Ref, t: Ref)
    requires ValidSchema(schema) && WellShaped(nodes, edges) && WellBound(schema, nodes, edges) && RecordsMatch(schema, nodes, edges, s)
    requires HasMember(ObjectsOf(s), d, t) && GivesIds(s, IdsOf(s))
    ensures LinkHolds(edges, IdsOf(s), Member(d, t))
  {
    var i, k := MemberEdge(schema, nodes, edges, s, d, t);
    assert EdgeTyped(nodes, edges[i]);
    RecordedObject(schema, nodes, edges, s, t);
    assert k == s.records[t].id;
  }

  lemma LinkCarried(schema: Schema, nodes: map<Id, Node>, edges: map<Id, Edge>, s: Snapshot, l: Link)
    requires ValidSchema(schema) && WellShaped(nodes, edges) && WellBound(schema, nodes, edges) && RecordsMatch(schema, nodes, edges, s)
    requires HasLink(ObjectsOf(s), l)
    ensures LinkHolds(edges, IdsOf(s), l)
  {
    IdsOfGiven(s);
    match l {
      case Owns(r, name) =>
        OwnerCarried(schema, nodes, edges, s, r, name);
      case Member(d, t) =>
        MemberCarried(schema, nodes, edges, s, d, t);
    }
  }

  lemma RecordsDecode(schema: Schema, nodes: map<Id, Node>, edges: map<Id, Edge>, s: Snapshot)
    requires ValidSchema(schema) && WellShaped(nodes, edges) && WellBound(schema, nodes, edges) && RecordsMatch(schema, nodes, edges, s)
    ensures Decodes(schema, nodes, edges, s, IdsOf(s))
  {
    RecordedNames(schema, nodes, edges, s);
    RecordedShapes(schema, nodes, edges, s);
    IdsOfGiven(s);
    RecordedNodes(schema, nodes, edges, s);
    RecordedEdges(schema, nodes, edges, s);
  }

  // ----- the decoder

  lemma BuiltRecords(schema: Schema, nodes: map<Id, Node>, edges: map<Id, Edge>, x: EdgeIndex, y: NodeIndex, ids: PropertyIds,
                     definitions: map<Ref, Record>, domains: map<Ref, Record>)
    requires ValidSchema(schema) && WellShaped(nodes, edges) && WellBound(schema, nodes, edges)
    requires Indexed(edges, x) && Located(nodes, y) && Tabulates(nodes, edges, ids)
    requires y.bindings.Keys == schema.Keys && definitions.Keys == schema.Keys && domains.Keys == y.domains.Keys
    requires forall r :: r in schema ==> IdsUnder(ids, r).Keys == PropertyNames(schema[r].properties)
    requires forall r :: r in schema ==>
               definitions[r] == DefinitionRecord(y.bindings[r], Annotated(schema[r], nodes, y.bindings[r], IdsUnder(ids, r)), IdsUnder(ids, r))
    requires forall q :: q in domains ==> IsDomainRecord(nodes, x, y.domains[q], domains[q])
    ensures RecordsMatch(schema, nodes, edges, Snapshot(definitions + domains, edges))
  {
    var s := Snapshot(definitions + domains, edges);
    forall r | r in domains ensures DomainMatches(nodes, edges, r, domains[r]) && r.kind == DomainKind {
      DomainBuilt(nodes, edges, x, y.domains[r], r, domains[r]);
    }
    forall r | r in s.records ensures RecordMatches(schema, nodes, edges, r, s.records[r]) {
      if r !in domains {
        assert BoundTo(nodes, r, y.bindings[r]);
      }
    }
  }

  lemma DomainBuilt(nodes: map<Id, Node>, edges: map<Id, Edge>, x: EdgeIndex, id: Id, r: Ref, record: Record)
    requires WellShaped(nodes, edges) && IncludesIndexed(edges, x)
    requires IsDomainRecord(nodes, x, id, record) && nodes[id].category == DomainNode && BindingRef(nodes[id]) == r
    ensures DomainMatches(nodes, edges, r, record)
  {
    forall m ensures m in record.domain.includes <==> MemberVia(nodes, edges, id, m) {
      if m in record.domain.includes {
        var t :| t in Targets(x, id) && t in nodes && m == To(BindingRef(nodes[t]));
        assert Carries(edges, Edge(Includes, id, t));
      }
      if MemberVia(nodes, edges, id, m) {
        var t: Id :| Carries(edges, Edge(Includes, id, t)) && t in nodes && m == To(BindingRef(nodes[t]));
        assert t in Targets(x, id);
      }
    }
  }

  // The decoder accepts exactly the graphs that hold some snapshot, and returns that snapshot.
  method BindInternalGraph(schema: Schema, nodes: map<Id, Node>, edges: map<Id, Edge>) returns (r: Result<Snapshot>)
    requires ValidSchema(schema) && WellShaped(nodes, edges)
    ensures r.Success? ==> Decodes(schema, nodes, edges, r.value, IdsOf(r.value))
    ensures r.Failure? ==> forall s, ids :: !Decodes(schema, nodes, edges, s, ids)
  {
    if s, ids :| Decodes(schema, nodes, edges, s, ids) {
      DecodableIsBound(schema, nodes, edges, s, ids);
    }
    r := Bind(schema, nodes, edges);
    if r.Success? {
      RecordsDecode(schema, nodes, edges, r.value);
    }
  }

  method Bind(schema: Schema, nodes: map<Id, Node>, edges: map<Id, Edge>) returns (r: Result<Snapshot>)
    requires ValidSchema(schema) && WellShaped(nodes, edges)
    ensures r.Success? <==> WellBound(schema, nodes, edges)
    ensures r.Success? ==> RecordsMatch(schema, nodes, edges, r.value)
  {
    var edgeIndex := ReadEdges(nodes, edges);
    if edgeIndex.Failure? {
      return Failure(Consistency);
    }
    var x := edgeIndex.value;
    var nodeIndex := ReadNodes(nodes, edges, x);
    if nodeIndex.Failure? {
      return Failure(Consistency);
    }
    var y := nodeIndex.value;
    var matched := MatchDefinitions(schema, nodes, y);
    if matched.Failure? {
      return Failure(Consistency);
    }
    var definitionByID := matched.value;
    var properties, seen, listed, culprit := ReadProperties(schema, nodes, x, definitionByID);
    if properties.Failure? {
      RejectedUncovered(schema, nodes, edges, x, definitionByID, seen, listed, culprit);
      return Failure(Consistency);
    }
    var ids := properties.value;
    AllListed(schema, nodes, edges, x, definitionByID, ids);
    var agree := CheckCounts(schema, ids);
    if !agree {
      return Failure(Consistency);
    }
    var definitions := BuildDefinitions(schema, nodes, y.bindings, ids);
    var domains := BuildDomains(nodes, edges, y.domains, x, definitionByID);
    if domains.Failure? {
      return Failure(Consistency);
    }
    forall r | r in schema ensures IdsUnder(ids, r).Keys == PropertyNames(schema[r].properties) {
      CountedNames(schema, nodes, x, definitionByID, ids, r);
    }
    BuiltRecords(schema, nodes, edges, x, y, ids, definitions, domains.value);
    return Success(Snapshot(definitions + domains.value, edges));
  }

  lemma AllListed(schema: Schema, nodes: map<Id, Node>, edges: map<Id, Edge>, x: EdgeIndex, definitionByID: map<Id, Ref>, ids: PropertyIds)
    requires ValidSchema(schema) && WellShaped(nodes, edges) && EdgesBound(nodes, edges) && OneOwner(nodes, edges)
    requires OwnersIndexed(edges, x) && NamesDefinitions(nodes, definitionByID)
    requires Listed(schema, nodes, x, definitionByID, nodes.Keys, ids)
    ensures Tabulates(nodes, edges, ids)
    ensures CountsAgree(schema, ids) <==> PropertiesCovered(schema, nodes, edges)
  {
    forall r, name, p: Id
      ensures PropertyBound(nodes, edges, r, name, p) <==> name in IdsUnder(ids, r) && IdsUnder(ids, r)[name] == p
    {
      ListedMeansBound(schema, nodes, edges, x, definitionByID, ids, r, name, p);
    }
    if CountsAgree(schema, ids) {
      CoveredByCounts(schema, nodes, edges, x, definitionByID, ids);
    }
    if PropertiesCovered(schema, nodes, edges) {
      CountsOfCovered(schema, nodes, edges, x, definitionByID, ids);
    }
  }
}
