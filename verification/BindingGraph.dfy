// The internal binding graph (internal/kernel/compiler_internal.go, snapshot_internal.go): one node
// per Domain, Definition and Property, an owner edge per Property and an includes edge per member.

module BindingGraph {
  import opened Outcomes
  import opened Text
  import opened Sorting
  import opened Model

  // Element identities, handed out by the engine and never reused.
  type Id = nat

  datatype Category = DefinitionBinding | PropertyBinding | DomainNode

  datatype Node = Node(category: Category, kind: string, name: string, title: Option<string>, description: Option<string>)

  datatype EdgeType = PropertyOf | Includes

  datatype Edge = Edge(kind: EdgeType, start: Id, end: Id)

  type Objects = map<Ref, Value>

  // ----- what a set of objects asks of the graph

  datatype Entity = Obj(ref: Ref) | Prop(ref: Ref, name: string)

  datatype Link = Owns(ref: Ref, name: string) | Member(domain: Ref, target: Ref)

  function KindText(kind: Kind): string {
    if kind == RelationshipDefinition then "relationship" else "node"
  }

  function MemberKey(member: Reference): string {
    match member
    case To(ref) => RefKey(ref)
    case New(alias) => "new:" + alias
  }

  ghost predicate WellFormedDomain(objects: Objects, domain: Domain) {
    && (forall m :: m in domain.includes ==> m.To? && m.ref in objects)
    && Distinct(domain.includes)
    && Ordered(domain.includes, MemberKey)
  }

  // Every object is stored under its own name.
  ghost predicate WellNamed(objects: Objects) {
    forall r :: r in objects ==> r == RefOf(objects[r]) && (objects[r].DefinitionValue? ==> IsDefinition(r.kind))
  }

  ghost predicate WellFormedObject(objects: Objects, value: Value) {
    match value
    case DomainValue(domain) => WellFormedDomain(objects, domain)
    case DefinitionValue(definition) => DistinctProperties(definition.properties)
  }

  // The shape every decoded snapshot and every successful plan has.
  ghost predicate WellFormed(objects: Objects) {
    && WellNamed(objects)
    && forall r {:trigger WellFormedObject(objects, objects[r])} :: r in objects ==> WellFormedObject(objects, objects[r])
  }

  predicate HasProperty(objects: Objects, r: Ref, name: string) {
    r in objects && objects[r].DefinitionValue? && name in PropertyNames(objects[r].definition.properties)
  }

  predicate HasMember(objects: Objects, d: Ref, t: Ref) {
    d in objects && objects[d].DomainValue? && To(t) in objects[d].domain.includes
  }

  // e has a node in the graph of these objects.
  predicate HasEntity(objects: Objects, e: Entity) {
    match e
    case Obj(r) => r in objects
    case Prop(r, name) => HasProperty(objects, r, name)
  }

  predicate HasLink(objects: Objects, l: Link) {
    match l
    case Owns(r, name) => HasProperty(objects, r, name)
    case Member(d, t) => HasMember(objects, d, t)
  }

  function Content(objects: Objects, e: Entity): Node
    requires HasEntity(objects, e)
  {
    match e
    case Obj(r) =>
      (match objects[r]
       case DomainValue(d) => Node(DomainNode, "", d.name, d.title, d.description)
       case DefinitionValue(d) => Node(DefinitionBinding, KindText(d.kind), d.name, d.title, d.description))
    case Prop(r, name) =>
      var p := FindProperty(objects[r].definition.properties, name).value;
      Node(PropertyBinding, "", name, p.title, p.description)
  }

  function Ends(l: Link): (Entity, Entity) {
    match l
    case Owns(r, name) => (Prop(r, name), Obj(r))
    case Member(d, t) => (Obj(d), Obj(t))
  }

  type Ids = map<Entity, Id>

  function LinkEdge(l: Link, ids: Ids): Edge
    requires Ends(l).0 in ids && Ends(l).1 in ids
  {
    Edge(if l.Owns? then PropertyOf else Includes, ids[Ends(l).0], ids[Ends(l).1])
  }

  predicate Linked(l: Link, ids: Ids, edge: Edge) {
    Ends(l).0 in ids && Ends(l).1 in ids && edge == LinkEdge(l, ids)
  }

  // ----- when a graph holds them

  ghost predicate Injective(ids: Ids) {
    forall a, b :: a in ids && b in ids && ids[a] == ids[b] ==> a == b
  }

  // No two edges say the same.
  ghost predicate NoTwins(edges: map<Id, Edge>) {
    forall a, b :: a in edges && b in edges && edges[a] == edges[b] ==> a == b
  }

  ghost predicate Carries(edges: map<Id, Edge>, edge: Edge) {
    exists i :: i in edges && edges[i] == edge
  }

  lemma CarriesMore(edges: map<Id, Edge>, i: Id, edge: Edge, other: Edge)
    requires i !in edges
    ensures Carries(edges[i := edge], other) <==> Carries(edges, other) || other == edge
  {
    var more := edges[i := edge];
    if Carries(edges, other) {
      var k :| k in edges && edges[k] == other;
      assert k in more && more[k] == other;
    }
    if other == edge {
      assert i in more && more[i] == other;
    }
    if Carries(more, other) {
      var k :| k in more && more[k] == other;
      assert k == i || k in edges;
    }
  }

  ghost predicate Names(ids: Ids, id: Id) {
    exists e :: e in ids && ids[e] == id
  }

  ghost predicate Explained(objects: Objects, ids: Ids, edge: Edge) {
    exists l :: HasLink(objects, l) && Linked(l, ids, edge)
  }

  // The entity has its node.
  ghost predicate NodeHolds(nodes: map<Id, Node>, objects: Objects, ids: Ids, e: Entity) {
    HasEntity(objects, e) && e in ids && ids[e] in nodes && nodes[ids[e]] == Content(objects, e)
  }

  // The link has its edge.
  ghost predicate LinkHolds(edges: map<Id, Edge>, ids: Ids, l: Link) {
    Ends(l).0 in ids && Ends(l).1 in ids && Carries(edges, LinkEdge(l, ids))
  }

  // The nodes are exactly the entities, each with its content under its own identity.
  ghost predicate NodesHold(nodes: map<Id, Node>, objects: Objects, ids: Ids) {
    && Injective(ids)
    && (forall e :: e in ids ==> HasEntity(objects, e))
    && (forall e {:trigger NodeHolds(nodes, objects, ids, e)} :: HasEntity(objects, e) ==> NodeHolds(nodes, objects, ids, e))
    && (forall id {:trigger Names(ids, id)} :: id in nodes ==> Names(ids, id))
  }

  // The edges are exactly the links, one edge each.
  ghost predicate EdgesHold(edges: map<Id, Edge>, objects: Objects, ids: Ids) {
    && NoTwins(edges)
    && (forall i {:trigger Explained(objects, ids, edges[i])} :: i in edges ==> Explained(objects, ids, edges[i]))
    && (forall l {:trigger LinkHolds(edges, ids, l)} :: HasLink(objects, l) ==> LinkHolds(edges, ids, l))
  }

  ghost predicate Holds(nodes: map<Id, Node>, edges: map<Id, Edge>, objects: Objects, ids: Ids) {
    NodesHold(nodes, objects, ids) && EdgesHold(edges, objects, ids)
  }

  // ----- snapshots (internal/kernel/snapshot.go)

  datatype Record =
    | DomainRecord(id: Id, domain: Domain)
    | DefinitionRecord(id: Id, definition: Definition, propertyIds: map<string, Id>)

  datatype Snapshot = Snapshot(records: map<Ref, Record>, relationships: map<Id, Edge>)

  function ValueOf(record: Record): Value {
    match record
    case DomainRecord(_, domain) => DomainValue(domain)
    case DefinitionRecord(_, definition, _) => DefinitionValue(definition)
  }

  function ObjectsOf(s: Snapshot): Objects {
    map r | r in s.records :: ValueOf(s.records[r])
  }

  // Every Property has an identity of its own and nothing else has.
  ghost predicate Covered(s: Snapshot) {
    forall r :: r in s.records && s.records[r].DefinitionRecord? ==>
      s.records[r].propertyIds.Keys == PropertyNames(s.records[r].definition.properties)
  }

  ghost predicate GivesIds(s: Snapshot, ids: Ids) {
    && (forall r :: r in s.records ==> Obj(r) in ids && ids[Obj(r)] == s.records[r].id)
    && (forall r, name :: r in s.records && s.records[r].DefinitionRecord? && name in s.records[r].propertyIds ==>
         Prop(r, name) in ids && ids[Prop(r, name)] == s.records[r].propertyIds[name])
    && (forall e :: e in ids ==>
         match e
         case Obj(r) => r in s.records
         case Prop(r, name) => r in s.records && s.records[r].DefinitionRecord? && name in s.records[r].propertyIds)
  }

  // A Definition as the Graph Type alone shows it.
  function Bare(d: Definition): Definition {
    d.(title := None, description := None,
       properties := seq(|d.properties|, i requires 0 <= i < |d.properties| => d.properties[i].(title := None, description := None)))
  }

  type Schema = map<Ref, Definition>

  ghost predicate MatchesSchema(schema: Schema, objects: Objects) {
    && (forall r :: r in schema ==> r in objects && objects[r].DefinitionValue? && Bare(objects[r].definition) == schema[r])
    && (forall r :: r in objects && objects[r].DefinitionValue? ==> r in schema)
  }

  // The snapshot s is what this schema and this graph say, nothing more and nothing less.
  ghost predicate Decodes(schema: Schema, nodes: map<Id, Node>, edges: map<Id, Edge>, s: Snapshot, ids: Ids) {
    && s.relationships == edges
    && WellFormed(ObjectsOf(s)) && Covered(s) && GivesIds(s, ids)
    && MatchesSchema(schema, ObjectsOf(s))
    && Holds(nodes, edges, ObjectsOf(s), ids)
  }
}
