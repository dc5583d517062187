// The ontology objects every part of the kernel works on (internal/kernel/model.go, refs.go,
// snapshot.go, patch_plan.go).

module Model {
  import opened Outcomes

  datatype Kind = DomainKind | NodeDefinition | RelationshipDefinition | KnowledgeNode | KnowledgeRelationship

  datatype Ref = Ref(kind: Kind, name: string)

  // A reference as a body spells it: an ontology Ref or a request-local alias ("new:...").
  datatype Reference = To(ref: Ref) | New(alias: string)

  datatype Index = Index(name: string, kind: string, targets: seq<Reference>, properties: seq<string>, hidden: Option<string>)

  datatype Property = Property(
    name: string, title: Option<string>, description: Option<string>, kind: string, required: bool,
    indexes: seq<Index>, renameFrom: string)

  datatype Domain = Domain(name: string, title: Option<string>, description: Option<string>, includes: seq<Reference>)

  datatype Definition = Definition(
    kind: Kind, name: string, title: Option<string>, description: Option<string>, labels: set<string>,
    from: Option<Reference>, to: Option<Reference>, properties: seq<Property>, indexes: seq<Index>)

  datatype Value = DomainValue(domain: Domain) | DefinitionValue(definition: Definition)

  predicate IsDefinition(kind: Kind) {
    kind == NodeDefinition || kind == RelationshipDefinition
  }

  // refFromObject, on values of a known shape.
  function RefOf(value: Value): Ref {
    match value
    case DomainValue(domain) => Ref(DomainKind, domain.name)
    case DefinitionValue(definition) => Ref(definition.kind, definition.name)
  }

  // The text a Ref sorts by; the percent encoding of names is left out.
  function RefKey(ref: Ref): string {
    (match ref.kind
     case DomainKind => "domain:"
     case NodeDefinition => "node:"
     case RelationshipDefinition => "relationship:"
     case KnowledgeNode => "n:"
     case KnowledgeRelationship => "r:") + ref.name
  }

  lemma RefKeyInjective(a: Ref, b: Ref)
    requires RefKey(a) == RefKey(b)
    ensures a == b
  {
    var s, t := RefKey(a), RefKey(b);
    assert s[0] == t[0] && s[1] == t[1];
    assert a.kind == b.kind;
    var n := |s| - |a.name|;
    assert s[n..] == a.name && t[n..] == b.name;
  }

  function PropertyNames(properties: seq<Property>): (names: set<string>)
    ensures forall name :: name in names <==> exists p :: p in properties && p.name == name
  {
    set p | p in properties :: p.name
  }

  ghost predicate DistinctProperties(properties: seq<Property>) {
    forall i, j :: 0 <= i < j < |properties| ==> properties[i].name != properties[j].name
  }

  // findProperty (internal/kernel/snapshot_internal.go).
  function FindProperty(properties: seq<Property>, name: string): (r: Option<Property>)
    ensures r.Some? ==> r.value in properties && r.value.name == name
    ensures r.None? <==> forall p :: p in properties ==> p.name != name
  {
    if properties == [] then None
    else if properties[0].name == name then Some(properties[0])
    else FindProperty(properties[1..], name)
  }

  // ----- plans (internal/kernel/patch_plan.go)

  datatype PlannedObject = PlannedObject(
    value: Value, baseRef: Option<Ref>, propertyBase: map<string, string>, explicitlyEdited: bool)

  // object.PropertyBase[name]; a missing key reads as the empty name.
  function BaseName(planned: PlannedObject, name: string): string {
    if name in planned.propertyBase then planned.propertyBase[name] else ""
  }
}
