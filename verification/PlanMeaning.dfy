// What a planned patch means for the objects of its base (internal/kernel/patch_plan.go): which fields an entry
// leaves alone, which Property continues which, and which form an index takes.

module PlanMeaning {
  import opened Outcomes
  import opened Text
  import opened Sorting
  import opened Model
  import opened BindingGraph
  import opened CompilerFacts
  import opened Hunks
  import opened GitPatch
  import opened EntryPlan
  import opened ReferencePlan
  import opened PatchPlan
  import IE = IndexEntries
  import IR = IndexReading
  import IP = IndexPlan
  import IX = IndexRoundTrip

  // ----- what an entry says

  // The body the entry gives its base object reads as v.
  ghost predicate Reads(c: Codec, base: Objects, e: Entry, b: Ref, v: Value) {
    && b in base
    && exists text {:trigger c.parse(b.kind, text)} ::
         && (if e.hunks == [] then text == c.render(base[b]) else PatchedText(e.hunks, c.render(base[b])) == Some(text))
         && c.parse(b.kind, text) == Success(v)
  }

  // The entry makes v of the base object b.
  ghost predicate Updates(c: Codec, base: Objects, e: Entry, b: Ref, v: Value) {
    e.operation == Update && c.parseRef(e.oldTarget) == Some(b) && Reads(c, base, e, b, v)
  }

  // The entry makes v of the base object b, under the name of t.
  ghost predicate MovesTo(c: Codec, base: Objects, e: Entry, b: Ref, t: Ref, v: Value) {
    e.operation == GitPatch.Rename && c.parseRef(e.oldTarget) == Some(b) && c.parseRef(e.newTarget) == Some(t) && Reads(c, base, e, b, v)
  }

  // No entry names the base object.
  predicate LeftAlone(c: Codec, entries: seq<Entry>, b: Ref) {
    forall i {:trigger entries[i]} :: 0 <= i < |entries| ==> entries[i].operation == GitPatch.Add || c.parseRef(entries[i].oldTarget) != Some(b)
  }

  // ----- fields

  // Everything of a Property but its indexes and where it comes from.
  predicate SameProperty(p: Property, q: Property) {
    q.name == p.name && q.title == p.title && q.description == p.description && q.kind == p.kind && q.required == p.required
  }

  ghost predicate HasAlike(properties: seq<Property>, p: Property) {
    exists q :: q in properties && SameProperty(p, q)
  }

  // One list has the Properties of the other, whatever their order.
  ghost predicate AlikeProperties(a: seq<Property>, b: seq<Property>) {
    && |b| == |a|
    && (forall p {:trigger HasAlike(b, p)} :: p in a ==> HasAlike(b, p))
    && (forall q {:trigger HasAlike(a, q)} :: q in b ==> HasAlike(a, q))
  }

  // Nothing differs but the name, the references, the order of Properties and their indexes.
  ghost predicate SameButName(a: Value, b: Value) {
    match a
    case DomainValue(d) =>
      b.DomainValue? && b.domain.title == d.title && b.domain.description == d.description
    case DefinitionValue(d) =>
      && b.DefinitionValue? && b.definition.kind == d.kind && b.definition.labels == d.labels
      && b.definition.title == d.title && b.definition.description == d.description
      && AlikeProperties(d.properties, b.definition.properties)
  }

  lemma BareAlike(x: seq<Property>, y: seq<Property>, z: seq<Property>)
    requires |y| == |x| && forall i {:trigger y[i]} :: 0 <= i < |x| ==> SameProperty(x[i], y[i])
    requires |z| == |y| && forall p :: p in IE.BareProperties(z) <==> p in IE.BareProperties(y)
    ensures AlikeProperties(x, z)
  {
    forall p | p in x ensures HasAlike(z, p) {
      var i :| 0 <= i < |x| && x[i] == p;
      InBare(y, y[i].(indexes := []));
      InBare(z, y[i].(indexes := []));
      var r :| r in z && y[i].(indexes := []) == r.(indexes := []);
      assert SameProperty(p, r);
    }
    forall r | r in z ensures HasAlike(x, r) {
      InBare(z, r.(indexes := []));
      InBare(y, r.(indexes := []));
      var s :| s in y && r.(indexes := []) == s.(indexes := []);
      var i :| 0 <= i < |y| && y[i] == s;
      assert x[i] in x && SameProperty(r, x[i]);
    }
  }

  lemma FinalKeepsProperties(base: Objects, m: Made, q: Ref, final: PlannedObject)
    requires ObjectMade(base, m, q, final) && m.before[q].value.DefinitionValue?
    ensures final.value.DefinitionValue? && AlikeProperties(m.before[q].value.definition.properties, final.value.definition.properties)
  {
    var x, y, z := m.before[q].value.definition.properties, m.resolved[q].value.definition.properties, final.value.definition.properties;
    BareAlike(x, y, z);
  }

  lemma FinalKeepsFields(base: Objects, m: Made, q: Ref, final: PlannedObject)
    requires ObjectMade(base, m, q, final)
    ensures SameButName(m.before[q].value, final.value) && final.baseRef == m.before[q].baseRef
    ensures final.explicitlyEdited == m.before[q].explicitlyEdited && RefOf(final.value) == RefOf(m.before[q].value)
  {
    if m.before[q].value.DefinitionValue? {
      FinalKeepsProperties(base, m, q, final);
    }
  }

  lemma SameFieldsThrough(a: Value, b: Value, d: Value)
    requires SameButName(b, d)
    requires match a
             case DomainValue(x) => b.DomainValue? && b.domain == x.(name := b.domain.name)
             case DefinitionValue(x) => b.DefinitionValue? && b.definition == x.(name := b.definition.name)
    ensures SameButName(a, d)
  {
  }

  // ----- an object no entry names

  lemma {:induction false} NoHandler(c: Codec, entries: seq<Entry>, k: nat, b: Ref)
    requires k <= |entries| && LeftAlone(c, entries, b)
    ensures Handler(c, entries, k, b).None?
  {
    if k > 0 {
      assert !Touches(c, entries[k - 1], b);
      NoHandler(c, entries, k - 1, b);
    }
  }

  // It stays under its Ref, with all its fields.
  lemma LeftAloneStays(c: Codec, entries: seq<Entry>, plan: Plan, m: Made, b: Ref)
    requires PlanMade(c, entries, plan, m) && b in plan.base.records && LeftAlone(c, entries, b)
    ensures b in plan.objects && plan.objects[b].baseRef == Some(b) && !plan.objects[b].explicitlyEdited
    ensures m.before[b].value == ValueOf(plan.base.records[b]) && SameButName(ValueOf(plan.base.records[b]), plan.objects[b].value)
  {
    var base := ObjectsOf(plan.base);
    NoHandler(c, entries, |entries|, b);
    AtBase(c, base, entries, |entries|, Progress(m.before, m.aliases, m.transitions), b);
    assert ObjectMade(base, m, b, plan.objects[b]);
    FinalKeepsFields(base, m, b, plan.objects[b]);
  }

  // ----- an object an entry edits

  lemma ReadsBody(c: Codec, base: Objects, e: Entry, b: Ref, v: Value)
    requires Reads(c, base, e, b, v)
    ensures EntryBody(c, base, e, b).Some? && c.parse(b.kind, EntryBody(c, base, e, b).value) == Success(v)
  {
  }

  lemma HandledBy(c: Codec, base: Objects, entries: seq<Entry>, p: Progress, k: nat, b: Ref)
    requires Accounted(c, base, entries, |entries|, p) && k < |entries| && Touches(c, entries[k], b)
    ensures Handler(c, entries, |entries|, b) == Some(k)
  {
    Accounts(c, base, entries, |entries|, p);
    HandlerFinds(c, entries, |entries|, b, k);
    OneHandler(c, entries, b, k, Handler(c, entries, |entries|, b).value);
  }

  // An Update leaves an object under its Ref, with the fields its new body says.
  lemma UpdateStands(c: Codec, entries: seq<Entry>, plan: Plan, m: Made, k: nat, b: Ref, v: Value)
    requires PlanMade(c, entries, plan, m) && k < |entries| && Updates(c, ObjectsOf(plan.base), entries[k], b, v)
    ensures b in plan.objects && plan.objects[b].baseRef == Some(b) && plan.objects[b].explicitlyEdited
    ensures RefOf(v) == b && m.before[b].value == v && SameButName(v, plan.objects[b].value)
  {
    var base := ObjectsOf(plan.base);
    var p := Progress(m.before, m.aliases, m.transitions);
    ReadsBody(c, base, entries[k], b, v);
    assert Touches(c, entries[k], b);
    HandledBy(c, base, entries, p, k, b);
    AtBase(c, base, entries, |entries|, p, b);
    assert ObjectMade(base, m, b, plan.objects[b]);
    FinalKeepsFields(base, m, b, plan.objects[b]);
  }

  // A Rename puts an object under its new Ref and changes only the name of what its body says.
  lemma RenameStands(c: Codec, entries: seq<Entry>, plan: Plan, m: Made, k: nat, b: Ref, t: Ref, v: Value)
    requires PlanMade(c, entries, plan, m) && k < |entries| && MovesTo(c, ObjectsOf(plan.base), entries[k], b, t, v)
    ensures t in plan.objects && plan.objects[t].baseRef == Some(b) && plan.objects[t].explicitlyEdited
    ensures RefOf(plan.objects[t].value) == t && t.kind == b.kind && RefOf(v) in {b, t}
    ensures SameButName(v, m.before[t].value) && SameButName(v, plan.objects[t].value)
    ensures Redeclared(v, m.before[t].value)
  {
    var base := ObjectsOf(plan.base);
    var p := Progress(m.before, m.aliases, m.transitions);
    ReadsBody(c, base, entries[k], b, v);
    assert Touches(c, entries[k], b);
    HandledBy(c, base, entries, p, k, b);
    AtBase(c, base, entries, |entries|, p, b);
    assert ObjectMade(base, m, t, plan.objects[t]);
    FinalKeepsFields(base, m, t, plan.objects[t]);
    SameFieldsThrough(v, m.before[t].value, plan.objects[t].value);
    SameToItself(v, m.before[t].value);
  }

  // The same Properties, indexes and references.
  predicate Redeclared(a: Value, b: Value) {
    match a
    case DomainValue(x) => b.DomainValue? && b.domain.includes == x.includes
    case DefinitionValue(x) =>
      && b.DefinitionValue? && b.definition.properties == x.properties && b.definition.indexes == x.indexes
      && b.definition.from == x.from && b.definition.to == x.to
  }

  lemma SameToItself(a: Value, b: Value)
    requires match a
             case DomainValue(x) => b.DomainValue? && b.domain == x.(name := b.domain.name)
             case DefinitionValue(x) => b.DefinitionValue? && b.definition == x.(name := b.definition.name)
    ensures SameButName(a, b) && Redeclared(a, b)
  {
    if a.DefinitionValue? {
      var ps := a.definition.properties;
      forall p | p in ps ensures HasAlike(b.definition.properties, p) {
        assert p in b.definition.properties && SameProperty(p, p);
      }
      forall q | q in b.definition.properties ensures HasAlike(ps, q) {
        assert q in ps && SameProperty(q, q);
      }
    }
  }

  // A pure Rename changes nothing but the name, where the body of the base object reads back as that object.
  lemma RenameChangesOnlyTheName(c: Codec, entries: seq<Entry>, plan: Plan, m: Made, k: nat, b: Ref, t: Ref)
    requires PlanMade(c, entries, plan, m) && k < |entries| && b in plan.base.records && entries[k].hunks == []
    requires entries[k].operation == GitPatch.Rename && c.parseRef(entries[k].oldTarget) == Some(b) && c.parseRef(entries[k].newTarget) == Some(t)
    requires c.parse(b.kind, c.render(ValueOf(plan.base.records[b]))) == Success(ValueOf(plan.base.records[b]))
    ensures t in plan.objects && plan.objects[t].baseRef == Some(b)
    ensures RefOf(plan.objects[t].value) == t && SameButName(ValueOf(plan.base.records[b]), plan.objects[t].value)
  {
    var base := ObjectsOf(plan.base);
    assert MovesTo(c, base, entries[k], b, t, base[b]) by {
      var text := c.render(base[b]);
      assert c.parse(b.kind, text) == Success(base[b]);
    }
    RenameStands(c, entries, plan, m, k, b, t, base[b]);
  }

  // ----- Properties that continue

  // What a Property of a base Definition's new body continues: what it says it is renamed from, otherwise the
  // Property of its own name if there is one, otherwise none.
  function Continues(properties: seq<Property>, p: Property): string {
    if p.renameFrom != "" then p.renameFrom
    else if FindProperty(properties, p.name).Some? then p.name
    else ""
  }

  lemma SourceIsContinued(base: Objects, b: Ref, properties: seq<Property>, p: Property)
    requires b in base && base[b].DefinitionValue? && properties == base[b].definition.properties
    ensures SourceOf(BaseNames(base, b), p) == Continues(properties, p)
  {
  }

  lemma ResolvedContinue(names: set<string>, before: seq<Property>, after: seq<Property>, propertyBase: map<string, string>, i: nat)
    requires |after| == |before| && (forall j {:trigger after[j]} :: 0 <= j < |before| ==> after[j] == before[j].(renameFrom := ""))
    requires DistinctProperties(after) && Sources(names, before, propertyBase) && i < |before|
    ensures before[i].name in propertyBase && propertyBase[before[i].name] == SourceOf(names, before[i])
  {
    forall j, k | 0 <= j < k < |before| ensures before[j].name != before[k].name {
      assert after[j].name != after[k].name;
    }
    assert before[i] == before[i];
  }

  lemma MadeContinues(base: Objects, m: Made, q: Ref, final: PlannedObject, b: Ref, i: nat)
    requires ObjectMade(base, m, q, final) && m.before[q].baseRef == Some(b) && b in base && base[b].DefinitionValue?
    requires m.before[q].value.DefinitionValue? && i < |m.before[q].value.definition.properties|
    ensures var p := m.before[q].value.definition.properties[i];
            p.name in final.propertyBase && final.propertyBase[p.name] == Continues(base[b].definition.properties, p)
  {
    var x, y := m.before[q].value.definition.properties, m.resolved[q].value.definition.properties;
    ResolvedContinue(BaseNames(base, b), x, y, final.propertyBase, i);
    SourceIsContinued(base, b, base[b].definition.properties, x[i]);
  }

  lemma ContinuedIsDefinition(c: Codec, base: Objects, entries: seq<Entry>, p: Progress, q: Ref, b: Ref)
    requires Accounted(c, base, entries, |entries|, p) && WellNamed(base)
    requires q in p.objects && p.objects[q].baseRef == Some(b) && p.objects[q].value.DefinitionValue?
    ensures b in base && base[b].DefinitionValue?
  {
    AtObject(c, base, entries, |entries|, p, q);
  }

  lemma PropertyContinues(c: Codec, entries: seq<Entry>, plan: Plan, m: Made, q: Ref, b: Ref, i: nat)
    requires PlanMade(c, entries, plan, m) && WellNamed(ObjectsOf(plan.base)) && q in plan.objects && plan.objects[q].baseRef == Some(b)
    requires q in m.before && m.before[q].value.DefinitionValue? && i < |m.before[q].value.definition.properties|
    ensures b in plan.base.records && plan.base.records[b].DefinitionRecord?
    ensures var p := m.before[q].value.definition.properties[i];
            BaseName(plan.objects[q], p.name) == Continues(plan.base.records[b].definition.properties, p)
  {
    var base := ObjectsOf(plan.base);
    assert ObjectMade(base, m, q, plan.objects[q]);
    FinalKeepsFields(base, m, q, plan.objects[q]);
    ContinuedIsDefinition(c, base, entries, Progress(m.before, m.aliases, m.transitions), q, b);
    MadeContinues(base, m, q, plan.objects[q], b, i);
  }

  // ----- references of an object that continues

  // A reference of a body resolves exactly when it names an object of the base, the target of a Rename, or what an
  // Add creates.
  lemma ReferenceResolves(c: Codec, base: Objects, entries: seq<Entry>, p: Progress, reference: Reference)
    requires Accounted(c, base, entries, |entries|, p)
    ensures Resolve(p.aliases, Known(base, p.transitions), reference).Success? <==>
              match reference
              case To(ref) => ref in base || exists a :: a in p.transitions && p.transitions[a] == ref
              case New(alias) => exists i {:trigger entries[i]} :: 0 <= i < |entries| && entries[i].operation == GitPatch.Add && entries[i].newTarget == alias
  {
    match reference {
      case To(ref) => assert ref in p.transitions.Values <==> exists a :: a in p.transitions && p.transitions[a] == ref;
      case New(alias) => AtAlias(c, base, entries, |entries|, p, alias);
    }
  }

  lemma BeforeOf(c: Codec, base: Objects, entries: seq<Entry>, p: Progress, q: Ref, b: Ref)
    requires Accounted(c, base, entries, |entries|, p) && q in p.objects && p.objects[q].baseRef == Some(b)
    ensures b in base && RefOf(p.objects[q].value) == q
    ensures !p.objects[q].explicitlyEdited ==> p.objects[q].value == base[b]
  {
    AtObject(c, base, entries, |entries|, p, q);
    AtBase(c, base, entries, |entries|, p, b);
  }

  // What planning starts from for an object that continues b.
  lemma ContinuedBefore(c: Codec, entries: seq<Entry>, plan: Plan, m: Made, q: Ref, b: Ref)
    requires PlanMade(c, entries, plan, m) && q in plan.objects && plan.objects[q].baseRef == Some(b)
    ensures b in plan.base.records && q in m.before && m.before[q].baseRef == Some(b) && RefOf(m.before[q].value) == q
    ensures !m.before[q].explicitlyEdited ==> m.before[q].value == ValueOf(plan.base.records[b])
    ensures ObjectMade(ObjectsOf(plan.base), m, q, plan.objects[q])
  {
    assert ObjectMade(ObjectsOf(plan.base), m, q, plan.objects[q]);
    BeforeOf(c, ObjectsOf(plan.base), entries, Progress(m.before, m.aliases, m.transitions), q, b);
  }

  lemma NotDropped(base: Objects, m: Made, planned: PlannedObject, x: Ref)
    requires Clean(m.transitions) && planned.value.DomainValue? && DomainResolves(base, m.aliases, m.transitions, planned)
    requires To(x) in BaseIncludes(base, planned) && x in m.transitions
    requires !planned.explicitlyEdited ==> planned.value.domain.includes == BaseIncludes(base, planned)
    ensures exists i :: 0 <= i < |planned.value.domain.includes| && Substituted(m.aliases, m.transitions, planned.value.domain.includes[i]) == To(m.transitions[x])
  {
    var includes, known := planned.value.domain.includes, Known(base, m.transitions);
    var resolved := ResolvedMembers(m.aliases, known, includes);
    if planned.explicitlyEdited {
      assert !Dropped(m.transitions, BaseIncludes(base, planned), resolved, x);
      var i :| 0 <= i < |resolved| && (resolved[i] == To(x) || resolved[i] == To(m.transitions[x]));
      assert Resolve(m.aliases, known, includes[i]).Success?;
      assert Substituted(m.aliases, m.transitions, includes[i]) == To(m.transitions[x]);
    } else {
      var i :| 0 <= i < |includes| && includes[i] == To(x);
      assert Substituted(m.aliases, m.transitions, includes[i]) == To(m.transitions[x]);
    }
  }

  lemma FinalMember(base: Objects, m: Made, q: Ref, final: PlannedObject, x: Ref)
    requires ObjectMade(base, m, q, final) && Clean(m.transitions) && ObjectResolves(base, m.aliases, m.transitions, m.before[q])
    requires m.before[q].value.DomainValue? && To(x) in BaseIncludes(base, m.before[q]) && x in m.transitions
    requires !m.before[q].explicitlyEdited ==> m.before[q].value.domain.includes == BaseIncludes(base, m.before[q])
    ensures final.value.DomainValue? && To(m.transitions[x]) in final.value.domain.includes
  {
    NotDropped(base, m, m.before[q], x);
  }

  // A member that the patch renames stays a member, under its new name, whatever else the patch does to the Domain.
  lemma RenamedMemberCarried(c: Codec, entries: seq<Entry>, plan: Plan, m: Made, q: Ref, b: Ref, x: Ref)
    requires PlanMade(c, entries, plan, m) && Clean(m.transitions) && AllResolve(ObjectsOf(plan.base), m)
    requires q in plan.objects && plan.objects[q].baseRef == Some(b) && plan.objects[q].value.DomainValue?
    requires b in plan.base.records && plan.base.records[b].DomainRecord? && To(x) in plan.base.records[b].domain.includes && x in m.transitions
    ensures To(m.transitions[x]) in plan.objects[q].value.domain.includes
  {
    var base := ObjectsOf(plan.base);
    ContinuedBefore(c, entries, plan, m, q, b);
    assert ObjectResolves(base, m.aliases, m.transitions, m.before[q]);
    FinalMember(base, m, q, plan.objects[q], x);
  }

  lemma NotRedirected(base: Objects, m: Made, planned: PlannedObject, before: Option<Reference>, end: Option<Reference>, x: Ref)
    requires Clean(m.transitions) && x in m.transitions && before == Some(To(x))
    requires EndResolves(base, m.aliases, m.transitions, true, before, end, planned.explicitlyEdited)
    requires !planned.explicitlyEdited ==> end == before
    ensures EndSubstituted(m.aliases, m.transitions, end) == Some(To(m.transitions[x]))
  {
  }

  lemma FinalEnds(base: Objects, m: Made, q: Ref, b: Ref, final: PlannedObject, x: Ref)
    requires ObjectMade(base, m, q, final) && Clean(m.transitions) && ObjectResolves(base, m.aliases, m.transitions, m.before[q])
    requires m.before[q].value.DefinitionValue? && m.before[q].value.definition.kind == RelationshipDefinition
    requires m.before[q].baseRef == Some(b) && b in base && base[b].DefinitionValue? && x in m.transitions
    requires !m.before[q].explicitlyEdited ==> m.before[q].value == base[b]
    ensures final.value.DefinitionValue?
    ensures base[b].definition.from == Some(To(x)) ==> final.value.definition.from == Some(To(m.transitions[x]))
    ensures base[b].definition.to == Some(To(x)) ==> final.value.definition.to == Some(To(m.transitions[x]))
  {
    var d, ends := m.before[q].value.definition, BaseEnds(base, m.before[q]);
    if ends.0 == Some(To(x)) {
      NotRedirected(base, m, m.before[q], ends.0, d.from, x);
    }
    if ends.1 == Some(To(x)) {
      NotRedirected(base, m, m.before[q], ends.1, d.to, x);
    }
  }

  lemma StillDefinition(base: Objects, m: Made, q: Ref, final: PlannedObject)
    requires ObjectMade(base, m, q, final)
    ensures final.value.DefinitionValue? <==> m.before[q].value.DefinitionValue?
  {
  }

  // An endpoint that the patch renames stays the endpoint, under its new name.
  lemma RenamedEndpointCarried(c: Codec, entries: seq<Entry>, plan: Plan, m: Made, q: Ref, b: Ref, x: Ref)
    requires PlanMade(c, entries, plan, m) && Clean(m.transitions) && AllResolve(ObjectsOf(plan.base), m)
    requires q in plan.objects && plan.objects[q].baseRef == Some(b) && q.kind == RelationshipDefinition && plan.objects[q].value.DefinitionValue?
    requires b in plan.base.records && plan.base.records[b].DefinitionRecord? && x in m.transitions
    ensures plan.base.records[b].definition.from == Some(To(x)) ==> plan.objects[q].value.definition.from == Some(To(m.transitions[x]))
    ensures plan.base.records[b].definition.to == Some(To(x)) ==> plan.objects[q].value.definition.to == Some(To(m.transitions[x]))
  {
    var base := ObjectsOf(plan.base);
    ContinuedBefore(c, entries, plan, m, q, b);
    StillDefinition(base, m, q, plan.objects[q]);
    assert ObjectResolves(base, m.aliases, m.transitions, m.before[q]);
    FinalEnds(base, m, q, b, plan.objects[q], x);
  }

  // ----- index declarations

  // One declaration: an index over these references, or over the declaring Definition where there are none.
  datatype Form = Form(kind: string, targets: seq<Reference>, properties: seq<string>)

  ghost predicate Says(d: Definition, name: string, form: Form) {
    || (exists ix :: ix in d.indexes && ix.name == name && form == Form(ix.kind, ix.targets, ix.properties))
    || (exists p, ix :: p in d.properties && ix in p.indexes && ix.name == name && form == Form(ix.kind, ix.targets, [p.name]))
  }

  ghost predicate SaysOnly(value: Value, name: string, form: Form) {
    && value.DefinitionValue? && Says(value.definition, name, form)
    && forall other :: Says(value.definition, name, other) ==> other == form
  }

  ghost predicate SaysNothing(value: Value, name: string) {
    value.DefinitionValue? ==> forall form :: !Says(value.definition, name, form)
  }

  function FormOf(e: IE.Entry): Form {
    Form(e.kind, e.targets, e.properties)
  }

  lemma SpelledSays(d: Definition, e: IE.Entry)
    requires e in IE.Spelled(d)
    ensures Says(d, e.name, FormOf(e))
  {
    IE.SpelledFromDefinition(d, e);
    IE.SpelledFromProperty(d.properties, e);
  }

  lemma SaidSpelled(d: Definition, name: string, form: Form) returns (e: IE.Entry)
    requires Says(d, name, form)
    ensures e in IE.Spelled(d) && e.name == name && FormOf(e) == form
  {
    if ix :| ix in d.indexes && ix.name == name && form == Form(ix.kind, ix.targets, ix.properties) {
      e := IE.AtDefinition(ix);
      IE.SpelledFromDefinition(d, e);
    } else {
      var p, ix :| p in d.properties && ix in p.indexes && ix.name == name && form == Form(ix.kind, ix.targets, [p.name]);
      e := IE.AtProperty(p, ix);
      IE.SpelledFromProperty(d.properties, e);
      IE.SpelledFromDefinition(d, e);
    }
  }

  lemma DeclaredOnly(value: Value, name: string, form: Form)
    requires SaysOnly(value, name, form)
    ensures DeclaredIn(value, name) == Some(IE.Declaration(name, form.kind, form.targets, form.properties, form.targets == []))
  {
    var e := SaidSpelled(value.definition, name, form);
    var last := IE.Last(IE.Spelled(value.definition), name);
    assert last.Some?;
    SpelledSays(value.definition, last.value);
  }

  lemma DeclaredNowhere(value: Value, name: string)
    requires SaysNothing(value, name)
    ensures DeclaredIn(value, name) == None
  {
    if DeclaredIn(value, name).Some? {
      var last := IE.Last(IE.Spelled(value.definition), name);
      SpelledSays(value.definition, last.value);
    }
  }

  // What an entry puts in place of what, and where the result stands.
  ghost predicate Replaces(c: Codec, base: Objects, e: Entry, before: Option<Value>, after: Value, owner: Ref) {
    match e.operation
    case Add => before == None && AddedValue(c, e) == Some(after) && owner == RefOf(after)
    case Delete => false
    case Update => exists b {:trigger Updates(c, base, e, b, after)} :: Updates(c, base, e, b, after) && before == Some(base[b]) && owner == b
    case Rename => exists b {:trigger MovesTo(c, base, e, b, owner, after)} :: MovesTo(c, base, e, b, owner, after) && before == Some(base[b])
  }

  // Before the entry the declaration was not this one.
  ghost predicate NotYet(before: Option<Value>, name: string, form: Form) {
    before.None? || SaysNothing(before.value, name) || exists other :: SaysOnly(before.value, name, other) && other != form
  }

  function Declaring(name: string, form: Form): IE.Declaration {
    IE.Declaration(name, form.kind, form.targets, form.properties, form.targets == [])
  }

  lemma WithNameSays(v: Value, w: Value, name: string, form: Form)
    requires Redeclared(v, w)
    ensures SaysOnly(v, name, form) <==> SaysOnly(w, name, form)
    ensures SaysNothing(v, name) <==> SaysNothing(w, name)
  {
    assert v.DefinitionValue? ==> forall other :: Says(v.definition, name, other) <==> Says(w.definition, name, other);
  }

  lemma EditIsMade(c: Codec, entries: seq<Entry>, plan: Plan, m: Made, k: nat, b: Ref)
    requires PlanMade(c, entries, plan, m) && k < |entries| && b in plan.base.records
    requires c.parseRef(entries[k].oldTarget) == Some(b) && (entries[k].operation == GitPatch.Update || entries[k].operation == GitPatch.Rename)
    ensures EditedValue(c, ObjectsOf(plan.base), entries[k], b).Some?
  {
    var base := ObjectsOf(plan.base);
    var p := Progress(m.before, m.aliases, m.transitions);
    assert Touches(c, entries[k], b);
    HandledBy(c, base, entries, p, k, b);
    AtBase(c, base, entries, |entries|, p, b);
  }

  lemma UpdatedValue(c: Codec, entries: seq<Entry>, plan: Plan, m: Made, k: nat, b: Ref, v: Value)
    requires PlanMade(c, entries, plan, m) && k < |entries| && Updates(c, ObjectsOf(plan.base), entries[k], b, v)
    ensures EditedValue(c, ObjectsOf(plan.base), entries[k], b) == Some(v) && RefOf(v) == b
  {
    EditIsMade(c, entries, plan, m, k, b);
    ReadsBody(c, ObjectsOf(plan.base), entries[k], b, v);
  }

  lemma MovedIs(c: Codec, base: Objects, e: Entry, b: Ref, t: Ref, v: Value) returns (w: Value)
    requires MovesTo(c, base, e, b, t, v) && EditedValue(c, base, e, b).Some?
    ensures EditedValue(c, base, e, b) == Some(w) && RefOf(w) == t && Redeclared(v, w)
  {
    ReadsBody(c, base, e, b, v);
    w := EditedValue(c, base, e, b).value;
    SameToItself(v, w);
  }

  lemma MovedValue(c: Codec, entries: seq<Entry>, plan: Plan, m: Made, k: nat, b: Ref, t: Ref, v: Value) returns (w: Value)
    requires PlanMade(c, entries, plan, m) && k < |entries| && MovesTo(c, ObjectsOf(plan.base), entries[k], b, t, v)
    ensures EditedValue(c, ObjectsOf(plan.base), entries[k], b) == Some(w) && RefOf(w) == t && Redeclared(v, w)
  {
    EditIsMade(c, entries, plan, m, k, b);
    w := MovedIs(c, ObjectsOf(plan.base), entries[k], b, t, v);
  }

  // The value an entry leaves behind, as the planner sees it.
  lemma ReplacedValue(c: Codec, entries: seq<Entry>, plan: Plan, m: Made, k: nat, before: Option<Value>, after: Value, owner: Ref)
      returns (w: Value)
    requires PlanMade(c, entries, plan, m) && k < |entries| && Replaces(c, ObjectsOf(plan.base), entries[k], before, after, owner)
    ensures ChangeOf(c, ObjectsOf(plan.base), entries[k]) == Some(ObjectChange(owner, before, w)) && Redeclared(after, w)
  {
    var base := ObjectsOf(plan.base);
    w := after;
    SameToItself(after, after);
    match entries[k].operation {
      case Add =>
      case Update =>
        var b :| Updates(c, base, entries[k], b, after) && before == Some(base[b]) && owner == b;
        UpdatedValue(c, entries, plan, m, k, b, after);
      case Rename =>
        var b :| MovesTo(c, base, entries[k], b, owner, after) && before == Some(base[b]);
        w := MovedValue(c, entries, plan, m, k, b, owner, after);
    }
  }

  lemma ReplacedIsPlanned(c: Codec, entries: seq<Entry>, plan: Plan, m: Made, k: nat, before: Option<Value>, after: Value, owner: Ref)
    requires PlanMade(c, entries, plan, m) && k < |entries| && Replaces(c, ObjectsOf(plan.base), entries[k], before, after, owner)
    ensures owner in plan.objects
  {
    var base := ObjectsOf(plan.base);
    match entries[k].operation {
      case Add =>
        AtAdd(c, base, entries, |entries|, Progress(m.before, m.aliases, m.transitions), k);
      case Update =>
        UpdateStands(c, entries, plan, m, k, owner, after);
      case Rename =>
        var b :| MovesTo(c, base, entries[k], b, owner, after) && before == Some(base[b]);
        RenameStands(c, entries, plan, m, k, b, owner, after);
    }
  }

  lemma ReplacedChange(c: Codec, entries: seq<Entry>, plan: Plan, m: Made, k: nat, before: Option<Value>, after: Value, owner: Ref)
      returns (w: Value)
    requires PlanMade(c, entries, plan, m) && k < |entries| && Replaces(c, ObjectsOf(plan.base), entries[k], before, after, owner)
    ensures ChangesMade(c, ObjectsOf(plan.base), entries)[k] == Some(ObjectChange(owner, before, w)) && Redeclared(after, w)
    ensures owner in plan.objects
  {
    ChangeAt(c, ObjectsOf(plan.base), entries, k);
    w := ReplacedValue(c, entries, plan, m, k, before, after, owner);
    ReplacedIsPlanned(c, entries, plan, m, k, before, after, owner);
  }

  lemma NotYetDiffers(before: Option<Value>, name: string, form: Form)
    requires NotYet(before, name, form)
    ensures (if before.Some? then DeclaredIn(before.value, name) else None) != Some(Declaring(name, form))
  {
    if before.Some? {
      if SaysNothing(before.value, name) {
        DeclaredNowhere(before.value, name);
      } else {
        var other :| SaysOnly(before.value, name, other) && other != form;
        DeclaredOnly(before.value, name, other);
      }
    }
  }

  lemma {:induction false} DeltaListed(changes: seq<Option<ObjectChange>>, n: nat, k: nat, name: string)
    requires k < n <= |changes|
    ensures forall d :: d in EntryDelta(changes[k], name) ==> d in DeltasOf(changes, n, name)
  {
    if k < n - 1 {
      DeltaListed(changes, n - 1, k, name);
    }
  }

  lemma DeltaRecorded(c: Codec, entries: seq<Entry>, plan: Plan, m: Made, k: nat, name: string, d: IP.Delta)
    requires PlanMade(c, entries, plan, m) && k < |entries|
    requires EntryDelta(ChangesMade(c, ObjectsOf(plan.base), entries)[k], name) == [d]
    ensures d in IP.ChangesOf(m.deltas, name)
  {
    var changes := ChangesMade(c, ObjectsOf(plan.base), entries);
    DeltaListed(changes, |entries|, k, name);
    assert IP.ChangesOf(m.deltas, name) == DeltasOf(changes, |entries|, name);
  }

  lemma DesiredDelta(owner: Ref, before: Option<Value>, after: Value, w: Value, name: string, form: Form)
    requires Redeclared(after, w) && SaysOnly(after, name, form) && NotYet(before, name, form)
    ensures EntryDelta(Some(ObjectChange(owner, before, w)), name) == [IP.Desire(owner, Declaring(name, form))]
  {
    WithNameSays(after, w, name, form);
    DeclaredOnly(w, name, form);
    NotYetDiffers(before, name, form);
  }

  lemma RemovedDelta(owner: Ref, before: Value, after: Value, w: Value, name: string, form: Form)
    requires Redeclared(after, w) && SaysOnly(before, name, form) && SaysNothing(after, name)
    ensures EntryDelta(Some(ObjectChange(owner, Some(before), w)), name) == [IP.Remove(owner)]
  {
    WithNameSays(after, w, name, form);
    DeclaredOnly(before, name, form);
    DeclaredNowhere(w, name);
  }

  // The entry asks for the declaration.
  lemma ChangeAsked(c: Codec, entries: seq<Entry>, plan: Plan, m: Made, k: nat, before: Option<Value>, after: Value, owner: Ref,
                    name: string, form: Form)
    requires PlanMade(c, entries, plan, m) && k < |entries| && Replaces(c, ObjectsOf(plan.base), entries[k], before, after, owner)
    requires SaysOnly(after, name, form) && NotYet(before, name, form)
    ensures IP.Desire(owner, Declaring(name, form)) in IP.ChangesOf(m.deltas, name) && owner in plan.objects
  {
    var w := ReplacedChange(c, entries, plan, m, k, before, after, owner);
    DesiredDelta(owner, before, after, w, name, form);
    DeltaRecorded(c, entries, plan, m, k, name, IP.Desire(owner, Declaring(name, form)));
  }

  // The entry asks for the index to go.
  lemma RemovalAsked(c: Codec, entries: seq<Entry>, plan: Plan, m: Made, k: nat, before: Value, after: Value, owner: Ref,
                     name: string, form: Form)
    requires PlanMade(c, entries, plan, m) && k < |entries| && Replaces(c, ObjectsOf(plan.base), entries[k], Some(before), after, owner)
    requires SaysOnly(before, name, form) && SaysNothing(after, name)
    ensures IP.Remove(owner) in IP.ChangesOf(m.deltas, name)
  {
    var w := ReplacedChange(c, entries, plan, m, k, Some(before), after, owner);
    RemovedDelta(owner, before, after, w, name, form);
    DeltaRecorded(c, entries, plan, m, k, name, IP.Remove(owner));
  }

  // ----- the index an entry asks for

  // What a reference of a body leads to in the plan.
  predicate LeadsTo(m: Made, reference: Reference, t: Ref) {
    match reference
    case To(ref) => t == if ref in m.transitions then m.transitions[ref] else ref
    case New(alias) => alias in m.aliases && t == m.aliases[alias]
  }

  ghost predicate Covers(m: Made, owner: Ref, form: Form, t: Ref) {
    if form.targets == [] then t == owner else exists k {:trigger form.targets[k]} :: 0 <= k < |form.targets| && LeadsTo(m, form.targets[k], t)
  }

  function NamesAfter(m: Made, owner: Ref, names: seq<string>): (r: seq<string>)
    ensures |r| == |names|
  {
    seq(|names|, k requires 0 <= k < |names| =>
      if owner in m.renames && names[k] in m.renames[owner] then m.renames[owner][names[k]] else names[k])
  }

  // The index is what the declaration says, its references and Property names as the plan renames them.
  ghost predicate IsForm(m: Made, owner: Ref, name: string, form: Form, index: IE.Logical) {
    && index.name == name && index.kind == form.kind
    && (forall t :: t in index.targets <==> Covers(m, owner, form, t))
    && Join(index.properties, '\0') == Join(NamesAfter(m, owner, form.properties), '\0')
  }

  lemma ListedCover(m: Made, owner: Ref, form: Form, sorted: seq<Ref>, t: Ref)
    requires form.targets != [] && forall k :: 0 <= k < |form.targets| ==> IR.Resolves(MovesOf(m), form.targets[k])
    requires multiset(sorted) == multiset(IR.TargetsOf(MovesOf(m), form.targets))
    ensures t in sorted <==> Covers(m, owner, form, t)
  {
    var listed := IR.TargetsOf(MovesOf(m), form.targets);
    assert t in sorted <==> t in multiset(sorted);
    assert t in listed <==> t in multiset(listed);
    if t in listed {
      var k :| 0 <= k < |listed| && listed[k] == t;
      assert LeadsTo(m, form.targets[k], t);
    }
    if Covers(m, owner, form, t) {
      var k :| 0 <= k < |form.targets| && LeadsTo(m, form.targets[k], t);
      assert listed[k] == t;
    }
  }

  lemma SortedCover(m: Made, owner: Ref, form: Form, index: IE.Logical)
    requires form.targets != [] && forall k :: 0 <= k < |form.targets| ==> IR.Resolves(MovesOf(m), form.targets[k])
    requires index.targets == IR.SortedRefs(IR.TargetsOf(MovesOf(m), form.targets))
    ensures forall t :: t in index.targets <==> Covers(m, owner, form, t)
  {
    SortedOrdered(IR.TargetsOf(MovesOf(m), form.targets), RefKey);
    forall t ensures t in index.targets <==> Covers(m, owner, form, t) {
      ListedCover(m, owner, form, index.targets, t);
    }
  }

  lemma NamesAreRenamed(m: Made, owner: Ref, names: seq<string>)
    ensures IR.RenamedProperties(MovesOf(m), owner, names) == NamesAfter(m, owner, names)
  {
  }

  lemma MeaningIsForm(m: Made, owner: Ref, name: string, form: Form, index: IE.Logical)
    requires IR.Meaning(MovesOf(m), owner, Declaring(name, form)) == Success(index)
    ensures IsForm(m, owner, name, form, index)
  {
    NamesAreRenamed(m, owner, form.properties);
    if form.targets != [] {
      SortedCover(m, owner, form, index);
    }
  }

  lemma AllAlike(moves: IR.Moves, ds: seq<IP.Delta>, d: IP.Delta)
    requires d in ds
    ensures IP.AllRemove(ds) ==> d.Remove?
    ensures forall index {:trigger IP.AllDesire(moves, ds, index)} :: IP.AllDesire(moves, ds, index) ==> IP.Asks(moves, d, index)
  {
    var k :| 0 <= k < |ds| && ds[k] == d;
    assert IP.AllRemove(ds) ==> ds[k].Remove?;
  }

  lemma DesireDecides(moves: IR.Moves, before: Option<IE.Logical>, ds: seq<IP.Delta>, d: IP.Delta)
    requires d in ds && d.Desire? && IP.Decided(moves, before, ds).Some?
    ensures var decided := IP.Decided(moves, before, ds).value;
            decided.Some? && IR.Meaning(moves, d.owner, d.declaration).Success? && IR.Same(decided.value, IR.Meaning(moves, d.owner, d.declaration).value)
  {
    AllAlike(moves, ds, d);
  }

  lemma RemoveDecides(moves: IR.Moves, before: Option<IE.Logical>, ds: seq<IP.Delta>, d: IP.Delta)
    requires d in ds && d.Remove? && IP.Decided(moves, before, ds).Some?
    ensures IP.Decided(moves, before, ds) == Some(None)
  {
    AllAlike(moves, ds, d);
  }

  lemma SettledAt(base: Objects, m: Made, name: string)
    requires IX.Settles(base, Values(m.resolved), MovesOf(m), m.deltas, m.gathered, m.moved, m.settled)
    ensures var decided := IP.Decided(MovesOf(m), IP.Lookup(m.moved, name), IP.ChangesOf(m.deltas, name));
            decided.Some? && IP.Lookup(m.settled, name) == IP.Surviving(Values(m.resolved), decided.value)
  {
    assert IX.SettledName(Values(m.resolved), MovesOf(m), m.deltas, m.moved, m.settled, name);
  }

  lemma AskedIsForm(m: Made, owner: Ref, name: string, form: Form, decided: IE.Logical)
    requires IR.Meaning(MovesOf(m), owner, Declaring(name, form)).Success?
    requires IR.Same(decided, IR.Meaning(MovesOf(m), owner, Declaring(name, form)).value)
    ensures IsForm(m, owner, name, form, decided)
  {
    MeaningIsForm(m, owner, name, form, IR.Meaning(MovesOf(m), owner, Declaring(name, form)).value);
  }

  lemma FormSurvives(m: Made, owner: Ref, name: string, form: Form, objects: Objects, decided: IE.Logical)
    requires IsForm(m, owner, name, form, decided)
    ensures IP.Orphaned(objects, decided) <==> !exists t :: t in objects && Covers(m, owner, form, t)
    ensures form.targets == [] && owner in objects ==> !IP.Orphaned(objects, decided)
  {
    assert form.targets == [] ==> Covers(m, owner, form, owner);
  }

  // What becomes of an index that is asked for.
  ghost predicate FormSettled(m: Made, objects: set<Ref>, owner: Ref, name: string, form: Form) {
    && (name in m.settled <==> exists t :: t in objects && Covers(m, owner, form, t))
    && (name in m.settled ==> IsForm(m, owner, name, form, m.settled[name]))
    && (form.targets == [] && owner in objects ==> name in m.settled)
  }

  lemma DesiredSettles(base: Objects, m: Made, owner: Ref, name: string, form: Form)
    requires IX.Settles(base, Values(m.resolved), MovesOf(m), m.deltas, m.gathered, m.moved, m.settled)
    requires IP.Desire(owner, Declaring(name, form)) in IP.ChangesOf(m.deltas, name)
    ensures FormSettled(m, m.resolved.Keys, owner, name, form)
  {
    SettledAt(base, m, name);
    DesireDecides(MovesOf(m), IP.Lookup(m.moved, name), IP.ChangesOf(m.deltas, name), IP.Desire(owner, Declaring(name, form)));
    var decided := IP.Decided(MovesOf(m), IP.Lookup(m.moved, name), IP.ChangesOf(m.deltas, name)).value.value;
    AskedIsForm(m, owner, name, form, decided);
    FormSurvives(m, owner, name, form, Values(m.resolved), decided);
  }

  // An index that an entry adds or changes has the form the entry gives it, wherever one of its Definitions is left.
  lemma ChangedIndexSettles(c: Codec, entries: seq<Entry>, plan: Plan, m: Made, k: nat, before: Option<Value>, after: Value, owner: Ref,
                            name: string, form: Form)
    requires PlanMade(c, entries, plan, m) && k < |entries| && Replaces(c, ObjectsOf(plan.base), entries[k], before, after, owner)
    requires SaysOnly(after, name, form) && NotYet(before, name, form)
    ensures FormSettled(m, plan.objects.Keys, owner, name, form) && owner in plan.objects
  {
    ChangeAsked(c, entries, plan, m, k, before, after, owner, name, form);
    DesiredSettles(ObjectsOf(plan.base), m, owner, name, form);
  }

  // An index that an entry no longer declares is gone.
  lemma RemovedIndexGoes(c: Codec, entries: seq<Entry>, plan: Plan, m: Made, k: nat, before: Value, after: Value, owner: Ref,
                         name: string, form: Form)
    requires PlanMade(c, entries, plan, m) && k < |entries| && Replaces(c, ObjectsOf(plan.base), entries[k], Some(before), after, owner)
    requires SaysOnly(before, name, form) && SaysNothing(after, name)
    ensures name !in m.settled
  {
    RemovalAsked(c, entries, plan, m, k, before, after, owner, name, form);
    SettledAt(ObjectsOf(plan.base), m, name);
    RemoveDecides(MovesOf(m), IP.Lookup(m.moved, name), IP.ChangesOf(m.deltas, name), IP.Remove(owner));
  }

  lemma DesireHides(moves: IR.Moves, before: Option<IE.Logical>, ds: seq<IP.Delta>, d: IP.Delta)
    requires d in ds && d.Desire? && IP.Decided(moves, before, ds).Some?
    ensures var decided := IP.Decided(moves, before, ds).value;
            decided.Some? && decided.value.hidden == if before.Some? && SameLogical(before.value, decided.value) then before.value.hidden else None
  {
    AllAlike(moves, ds, d);
  }

  // The two cover the same and are of one kind, property lists read as one text.
  predicate SameLogical(a: IE.Logical, b: IE.Logical) {
    a.name == b.name && a.kind == b.kind && a.targets == b.targets && Join(a.properties, '\0') == Join(b.properties, '\0')
  }

  lemma DesiredHides(base: Objects, m: Made, owner: Ref, name: string, form: Form)
    requires IX.Settles(base, Values(m.resolved), MovesOf(m), m.deltas, m.gathered, m.moved, m.settled) && name in m.settled
    requires IP.Desire(owner, Declaring(name, form)) in IP.ChangesOf(m.deltas, name)
    ensures m.settled[name].hidden == if name in m.moved && SameLogical(m.moved[name], m.settled[name]) then m.moved[name].hidden else None
  {
    SettledAt(base, m, name);
    DesireHides(MovesOf(m), IP.Lookup(m.moved, name), IP.ChangesOf(m.deltas, name), IP.Desire(owner, Declaring(name, form)));
  }

  // Hidden options survive exactly in an index that an entry only restates.
  lemma ChangedIndexHides(c: Codec, entries: seq<Entry>, plan: Plan, m: Made, k: nat, before: Option<Value>, after: Value, owner: Ref,
                          name: string, form: Form)
    requires PlanMade(c, entries, plan, m) && k < |entries| && Replaces(c, ObjectsOf(plan.base), entries[k], before, after, owner)
    requires SaysOnly(after, name, form) && NotYet(before, name, form) && name in m.settled
    ensures m.settled[name].hidden == if name in m.moved && SameLogical(m.moved[name], m.settled[name]) then m.moved[name].hidden else None
  {
    ChangeAsked(c, entries, plan, m, k, before, after, owner, name, form);
    DesiredHides(ObjectsOf(plan.base), m, owner, name, form);
  }

  lemma OneDelta(c: Codec, entries: seq<Entry>, plan: Plan, m: Made, before: Option<Value>, after: Value, owner: Ref, name: string, form: Form)
    requires PlanMade(c, entries, plan, m) && |entries| == 1 && Replaces(c, ObjectsOf(plan.base), entries[0], before, after, owner)
    requires SaysOnly(after, name, form) && NotYet(before, name, form)
    ensures IP.ChangesOf(m.deltas, name) == [IP.Desire(owner, Declaring(name, form))] && owner in plan.objects
  {
    var w := ReplacedChange(c, entries, plan, m, 0, before, after, owner);
    DesiredDelta(owner, before, after, w, name, form);
    var changes := ChangesMade(c, ObjectsOf(plan.base), entries);
    assert DeltasOf(changes, 1, name) == DeltasOf(changes, 0, name) + EntryDelta(changes[0], name);
    assert IP.ChangesOf(m.deltas, name) == DeltasOf(changes, |entries|, name);
  }

  lemma OneDecides(m: Made, before: Option<IE.Logical>, owner: Ref, name: string, form: Form)
    requires form.targets == []
    ensures var decided := IP.Decided(MovesOf(m), before, [IP.Desire(owner, Declaring(name, form))]);
            decided.Some? && decided.value.Some? && decided.value.value.(hidden := None) ==
              IE.Logical(name, form.kind, [owner], NamesAfter(m, owner, form.properties), None)
  {
    NamesAreRenamed(m, owner, form.properties);
  }

  // With one entry, to the letter.
  lemma OneEntrySettles(c: Codec, entries: seq<Entry>, plan: Plan, m: Made, before: Option<Value>, after: Value, owner: Ref, name: string, form: Form)
    requires PlanMade(c, entries, plan, m) && |entries| == 1 && Replaces(c, ObjectsOf(plan.base), entries[0], before, after, owner)
    requires SaysOnly(after, name, form) && NotYet(before, name, form) && form.targets == []
    ensures name in m.settled && m.settled[name].name == name && m.settled[name].kind == form.kind
    ensures m.settled[name].targets == [owner] && m.settled[name].properties == NamesAfter(m, owner, form.properties)
  {
    OneDelta(c, entries, plan, m, before, after, owner, name, form);
    OneDecides(m, IP.Lookup(m.moved, name), owner, name, form);
    SettledAt(ObjectsOf(plan.base), m, name);
    assert owner in Values(m.resolved);
  }

  // ----- the index no entry asks for

  // Both sides declare it in the same form, or neither does.
  ghost predicate AsBefore(before: Option<Value>, after: Value, name: string) {
    || (SaysNothing(after, name) && (before.None? || SaysNothing(before.value, name)))
    || (before.Some? && exists form :: SaysOnly(before.value, name, form) && SaysOnly(after, name, form))
  }

  ghost predicate Unasked(c: Codec, base: Objects, entries: seq<Entry>, name: string) {
    forall k, before, after, owner {:trigger Replaces(c, base, entries[k], before, after, owner)} ::
      0 <= k < |entries| && Replaces(c, base, entries[k], before, after, owner) ==> AsBefore(before, after, name)
  }

  lemma SameDeclared(before: Option<Value>, after: Value, w: Value, name: string)
    requires AsBefore(before, after, name) && Redeclared(after, w)
    ensures DeclaredIn(w, name) == if before.Some? then DeclaredIn(before.value, name) else None
  {
    if SaysNothing(after, name) && (before.None? || SaysNothing(before.value, name)) {
      WithNameSays(after, w, name, Form("", [], []));
      DeclaredNowhere(w, name);
      if before.Some? {
        DeclaredNowhere(before.value, name);
      }
    } else {
      var form :| SaysOnly(before.value, name, form) && SaysOnly(after, name, form);
      WithNameSays(after, w, name, form);
      DeclaredOnly(before.value, name, form);
      DeclaredOnly(w, name, form);
    }
  }

  lemma EditReplaces(c: Codec, base: Objects, e: Entry, b: Ref) returns (v: Value)
    requires (e.operation == GitPatch.Update || e.operation == GitPatch.Rename) && c.parseRef(e.oldTarget) == Some(b) && b in base
    requires EditedValue(c, base, e, b).Some?
    ensures Replaces(c, base, e, Some(base[b]), v, RefOf(EditedValue(c, base, e, b).value)) && Redeclared(v, EditedValue(c, base, e, b).value)
  {
    var text := EntryBody(c, base, e, b).value;
    v := c.parse(b.kind, text).value;
    var w := EditedValue(c, base, e, b).value;
    assert Reads(c, base, e, b, v);
    if e.operation == GitPatch.Update {
      assert Updates(c, base, e, b, v);
    } else {
      assert MovesTo(c, base, e, b, RefOf(w), v);
    }
    SameToItself(v, w);
  }

  lemma ChangeReplaces(c: Codec, base: Objects, e: Entry) returns (v: Value)
    requires ChangeOf(c, base, e).Some?
    ensures Replaces(c, base, e, ChangeOf(c, base, e).value.before, v, ChangeOf(c, base, e).value.owner)
    ensures Redeclared(v, ChangeOf(c, base, e).value.after)
  {
    if e.operation == GitPatch.Add {
      v := AddedValue(c, e).value;
      SameToItself(v, v);
    } else {
      v := EditReplaces(c, base, e, c.parseRef(e.oldTarget).value);
    }
  }

  lemma EntryAsksNothing(c: Codec, base: Objects, entries: seq<Entry>, k: nat, name: string)
    requires k < |entries| && Unasked(c, base, entries, name)
    ensures EntryDelta(ChangeOf(c, base, entries[k]), name) == []
  {
    var change := ChangeOf(c, base, entries[k]);
    if change.Some? {
      var v := ChangeReplaces(c, base, entries[k]);
      assert AsBefore(change.value.before, v, name);
      SameDeclared(change.value.before, v, change.value.after, name);
    }
  }

  ghost predicate NoDelta(change: Option<ObjectChange>, name: string) {
    EntryDelta(change, name) == []
  }

  lemma {:induction false} NoDeltas(changes: seq<Option<ObjectChange>>, k: nat, name: string)
    requires k <= |changes| && forall i {:trigger NoDelta(changes[i], name)} :: 0 <= i < k ==> NoDelta(changes[i], name)
    ensures DeltasOf(changes, k, name) == []
  {
    if k > 0 {
      NoDeltas(changes, k - 1, name);
      var last := changes[k - 1];
      assert NoDelta(last, name);
      calc {
        DeltasOf(changes, k, name);
        DeltasOf(changes, k - 1, name) + EntryDelta(last, name);
        [];
      }
    }
  }

  lemma NothingAsked(c: Codec, base: Objects, entries: seq<Entry>, name: string)
    requires Unasked(c, base, entries, name)
    ensures DeltasOf(ChangesMade(c, base, entries), |entries|, name) == []
  {
    var changes := ChangesMade(c, base, entries);
    forall i | 0 <= i < |entries| ensures NoDelta(changes[i], name) {
      ChangeAt(c, base, entries, i);
      EntryAsksNothing(c, base, entries, i, name);
    }
    NoDeltas(changes, |entries|, name);
  }

  // An index that every entry leaves as it was is the index of the base, moved, as long as one of its Definitions is left.
  lemma UnaskedIndexStays(c: Codec, entries: seq<Entry>, plan: Plan, m: Made, name: string)
    requires PlanMade(c, entries, plan, m) && Unasked(c, ObjectsOf(plan.base), entries, name)
    ensures name in m.settled <==> name in m.moved && exists t :: t in m.moved[name].targets && t in plan.objects
    ensures name in m.settled ==> m.settled[name] == m.moved[name]
  {
    var base := ObjectsOf(plan.base);
    NothingAsked(c, base, entries, name);
    assert IP.ChangesOf(m.deltas, name) == DeltasOf(ChangesMade(c, base, entries), |entries|, name);
    SettledAt(base, m, name);
  }
}

// Element identities across a committed patch (internal/kernel/patch_execute.go).
module PatchIdentities {
  import opened Outcomes
  import opened Model
  import opened BindingGraph
  import opened CompilerFacts
  import opened Compiler
  import opened GitPatch
  import opened EntryPlan
  import opened ReferencePlan
  import opened PatchPlan
  import opened PlanMeaning
  import opened PatchTransaction
  import opened SchemaMigration
  import IR = IndexReading
  import RF = RenameFacts

  // The patch these entries make was committed over a State that is decoded as base.
  ghost predicate CommittedOver(c: Codec, entries: seq<Entry>, schema: Schema, before: Stored, after: Stored, base: Snapshot, baseIds: Ids,
                                decoded: Snapshot, defaults: string, target: Constraints, w: Done) {
    && w.plan.base == base && ValidPlan(w.plan) && PlanMade(c, entries, w.plan, w.made)
    && Decodes(schema, before.nodes, before.edges, base, baseIds) && NamedProperties(ObjectsOf(base))
    && Committed(before, after, baseIds, base, decoded, defaults, target, w)
  }

  // The object q of the result has the identity of the base object b.
  predicate SameElement(base: Snapshot, decoded: Snapshot, b: Ref, q: Ref) {
    b in base.records && q in decoded.records && decoded.records[q].id == base.records[b].id
  }

  // The Property name of q has the identity of b's Property source, or a new one where there is no source.
  predicate SamePropertyElement(base: Snapshot, decoded: Snapshot, mark: Id, b: Ref, source: string, q: Ref, name: string) {
    && b in base.records && base.records[b].DefinitionRecord? && q in decoded.records && decoded.records[q].DefinitionRecord?
    && name in decoded.records[q].propertyIds
    && if source == "" then decoded.records[q].propertyIds[name] >= mark
       else source in base.records[b].propertyIds && decoded.records[q].propertyIds[name] == base.records[b].propertyIds[source]
  }

  // A patch that changes nothing leaves each object at its own place, and each Property with its own name.
  lemma NothingMoves(c: Codec, entries: seq<Entry>, plan: Plan, m: Made, q: Ref, b: Ref)
    requires PlanMade(c, entries, plan, m) && q in plan.objects && plan.objects[q].baseRef == Some(b)
    requires NoOp(plan.base, plan, MovesOf(m))
    ensures q == b && b in plan.base.records && plan.objects[b].value == ValueOf(plan.base.records[b])
  {
    var base := ObjectsOf(plan.base);
    var p := Progress(m.before, m.aliases, m.transitions);
    assert ObjectMade(base, m, q, plan.objects[q]);
    FinalKeepsFields(base, m, q, plan.objects[q]);
    AtObject(c, base, entries, |entries|, p, q);
    EachBaseObjectOnce(c, base, entries, p, b);
    assert Planned(plan)[q] == base[q];
  }

  lemma NothingRenamed(base: Objects, m: Made, q: Ref, final: PlannedObject, i: nat)
    requires ObjectMade(base, m, q, final) && m.renames == map[] && m.before[q].baseRef.Some?
    requires m.before[q].value.DefinitionValue? && i < |m.before[q].value.definition.properties|
    ensures m.before[q].value.definition.properties[i].renameFrom == ""
  {
  }

  lemma GraphElement(before: Stored, after: Stored, baseIds: Ids, base: Snapshot, decoded: Snapshot, w: Done, q: Ref, b: Ref)
    requires GraphDone(before, after, baseIds, decoded, w) && GivesIds(base, baseIds) && w.plan.base == base && ValidPlan(w.plan)
    requires q in w.plan.objects && w.plan.objects[q].baseRef == Some(b)
    ensures SameElement(base, decoded, b, q)
  {
    var e := Obj(q);
    assert HasEntity(Planned(w.plan), e) && Kept(w.plan, e) && Claim(w.plan, e) == Some(Obj(b));
    assert w.ids[e] == KeptId(w.plan, baseIds, e);
    assert b in base.records;
    assert decoded.records[q] == TargetRecord(Planned(w.plan)[q], q, w.ids);
  }

  lemma PropertyIdOf(objects: Objects, ids: Ids, edges: map<Id, Edge>, q: Ref, name: string)
    requires Complete(objects, ids) && HasProperty(objects, q, name)
    ensures var s := Target(objects, ids, edges);
            q in s.records && s.records[q].DefinitionRecord? && name in s.records[q].propertyIds && Prop(q, name) in ids
            && s.records[q].propertyIds[name] == ids[Prop(q, name)]
  {
    assert HasEntity(objects, Obj(q)) && HasEntity(objects, Prop(q, name));
    assert Target(objects, ids, edges).records[q] == TargetRecord(objects[q], q, ids);
  }

  lemma KeptProperty(plan: Plan, baseIds: Ids, base: Snapshot, ids: Ids, mark: Id, q: Ref, b: Ref, name: string)
    requires NodesContinue(plan, baseIds, ids, mark) && GivesIds(base, baseIds) && Covered(base) && plan.base == base && ValidPlan(plan)
    requires q in plan.objects && plan.objects[q].baseRef == Some(b) && HasProperty(Planned(plan), q, name) && Prop(q, name) in ids
    requires b in base.records && base.records[b].DefinitionRecord?
    ensures var source := BaseName(plan.objects[q], name);
            if source == "" then ids[Prop(q, name)] >= mark
            else source in base.records[b].propertyIds && ids[Prop(q, name)] == base.records[b].propertyIds[source]
  {
    var e, source := Prop(q, name), BaseName(plan.objects[q], name);
    assert ids[e] == ids[e];
    if source != "" {
      assert Claim(plan, e) == Some(Prop(b, source));
      assert HasEntity(Planned(plan), e) && Kept(plan, e);
      assert HasProperty(ObjectsOf(base), b, source);
      assert base.records[b].propertyIds.Keys == PropertyNames(base.records[b].definition.properties);
    }
  }

  lemma GraphProperty(before: Stored, after: Stored, baseIds: Ids, base: Snapshot, decoded: Snapshot, w: Done, q: Ref, b: Ref, name: string)
    requires GraphDone(before, after, baseIds, decoded, w) && GivesIds(base, baseIds) && Covered(base) && w.plan.base == base && ValidPlan(w.plan)
    requires q in w.plan.objects && w.plan.objects[q].baseRef == Some(b) && HasProperty(Planned(w.plan), q, name)
    requires b in base.records && base.records[b].DefinitionRecord?
    ensures SamePropertyElement(base, decoded, before.nextId, b, BaseName(w.plan.objects[q], name), q, name)
  {
    PropertyIdOf(Planned(w.plan), w.ids, after.edges, q, name);
    KeptProperty(w.plan, baseIds, base, w.ids, before.nextId, q, b, name);
  }

  // ----- objects

  lemma ContinuedElement(c: Codec, entries: seq<Entry>, schema: Schema, before: Stored, after: Stored, base: Snapshot, baseIds: Ids,
                         decoded: Snapshot, defaults: string, target: Constraints, w: Done, q: Ref, b: Ref)
    requires CommittedOver(c, entries, schema, before, after, base, baseIds, decoded, defaults, target, w)
    requires q in w.plan.objects && w.plan.objects[q].baseRef == Some(b)
    ensures SameElement(base, decoded, b, q)
  {
    if NoOp(base, w.plan, MovesOf(w.made)) {
      NothingMoves(c, entries, w.plan, w.made, q, b);
    } else {
      GraphElement(before, after, baseIds, base, decoded, w, q, b);
    }
  }

  lemma SameNames(a: seq<Property>, b: seq<Property>, i: nat)
    requires AlikeProperties(a, b) && i < |a|
    ensures a[i].name in PropertyNames(b)
  {
    var p := a[i];
    assert HasAlike(b, p);
    var q :| q in b && SameProperty(p, q);
  }

  lemma FinalHasName(base: Objects, m: Made, q: Ref, final: PlannedObject, i: nat)
    requires ObjectMade(base, m, q, final) && m.before[q].value.DefinitionValue? && i < |m.before[q].value.definition.properties|
    ensures final.value.DefinitionValue? && m.before[q].value.definition.properties[i].name in PropertyNames(final.value.definition.properties)
  {
    FinalKeepsProperties(base, m, q, final);
    SameNames(m.before[q].value.definition.properties, final.value.definition.properties, i);
  }

  lemma StillNamed(base: Snapshot, plan: Plan, m: Made, q: Ref, b: Ref, i: nat)
    requires plan.base == base && b in base.records && q in plan.objects && ObjectMade(ObjectsOf(base), m, q, plan.objects[q])
    requires plan.objects[q].value == ValueOf(base.records[b]) && m.renames == map[] && plan.objects[q].baseRef == Some(b)
    requires m.before[q].value.DefinitionValue? && i < |m.before[q].value.definition.properties|
    ensures base.records[b].DefinitionRecord?
    ensures var p, properties := m.before[q].value.definition.properties[i], base.records[b].definition.properties;
            p.name in PropertyNames(properties) && Continues(properties, p) == p.name
  {
    var final := plan.objects[q];
    FinalHasName(ObjectsOf(base), m, q, final, i);
    NothingRenamed(ObjectsOf(base), m, q, final, i);
  }

  lemma StillElement(base: Snapshot, mark: Id, b: Ref, name: string)
    requires Covered(base) && b in base.records && base.records[b].DefinitionRecord? && name != ""
    requires name in PropertyNames(base.records[b].definition.properties)
    ensures SamePropertyElement(base, base, mark, b, name, b, name)
  {
    assert base.records[b].propertyIds.Keys == PropertyNames(base.records[b].definition.properties);
  }

  lemma StillProperty(c: Codec, entries: seq<Entry>, base: Snapshot, decoded: Snapshot, mark: Id, plan: Plan, m: Made, q: Ref, b: Ref, i: nat)
    requires PlanMade(c, entries, plan, m) && plan.base == base && Covered(base) && NamedProperties(ObjectsOf(base))
    requires NoOp(base, plan, MovesOf(m)) && decoded == base
    requires q in plan.objects && plan.objects[q].baseRef == Some(b) && b in base.records && base.records[b].DefinitionRecord?
    requires q in m.before && m.before[q].value.DefinitionValue? && i < |m.before[q].value.definition.properties|
    ensures var p := m.before[q].value.definition.properties[i];
            SamePropertyElement(base, decoded, mark, b, Continues(base.records[b].definition.properties, p), q, p.name)
  {
    NothingMoves(c, entries, plan, m, q, b);
    assert ObjectMade(ObjectsOf(base), m, q, plan.objects[q]);
    StillNamed(base, plan, m, q, b, i);
    assert "" !in BaseNames(ObjectsOf(base), b);
    StillElement(base, mark, b, m.before[q].value.definition.properties[i].name);
  }

  lemma MovedProperty(c: Codec, entries: seq<Entry>, before: Stored, after: Stored, base: Snapshot, baseIds: Ids, decoded: Snapshot, w: Done,
                      q: Ref, b: Ref, i: nat)
    requires PlanMade(c, entries, w.plan, w.made) && w.plan.base == base && ValidPlan(w.plan)
    requires GraphDone(before, after, baseIds, decoded, w) && GivesIds(base, baseIds) && Covered(base) && WellNamed(ObjectsOf(base))
    requires q in w.plan.objects && w.plan.objects[q].baseRef == Some(b)
    requires q in w.made.before && w.made.before[q].value.DefinitionValue? && i < |w.made.before[q].value.definition.properties|
    ensures b in base.records && base.records[b].DefinitionRecord?
    ensures var p := w.made.before[q].value.definition.properties[i];
            SamePropertyElement(base, decoded, before.nextId, b, Continues(base.records[b].definition.properties, p), q, p.name)
  {
    var p := w.made.before[q].value.definition.properties[i];
    PropertyContinues(c, entries, w.plan, w.made, q, b, i);
    assert ObjectMade(ObjectsOf(base), w.made, q, w.plan.objects[q]);
    FinalHasName(ObjectsOf(base), w.made, q, w.plan.objects[q], i);
    assert Planned(w.plan)[q] == w.plan.objects[q].value;
    GraphProperty(before, after, baseIds, base, decoded, w, q, b, p.name);
  }

  lemma ContinuedProperty(c: Codec, entries: seq<Entry>, schema: Schema, before: Stored, after: Stored, base: Snapshot, baseIds: Ids,
                          decoded: Snapshot, defaults: string, target: Constraints, w: Done, q: Ref, b: Ref, i: nat)
    requires CommittedOver(c, entries, schema, before, after, base, baseIds, decoded, defaults, target, w)
    requires q in w.plan.objects && w.plan.objects[q].baseRef == Some(b)
    requires q in w.made.before && w.made.before[q].value.DefinitionValue? && i < |w.made.before[q].value.definition.properties|
    ensures b in base.records && base.records[b].DefinitionRecord?
    ensures var p := w.made.before[q].value.definition.properties[i];
            SamePropertyElement(base, decoded, before.nextId, b, Continues(base.records[b].definition.properties, p), q, p.name)
  {
    if NoOp(base, w.plan, MovesOf(w.made)) {
      PropertyContinues(c, entries, w.plan, w.made, q, b, i);
      StillProperty(c, entries, base, decoded, before.nextId, w.plan, w.made, q, b, i);
    } else {
      MovedProperty(c, entries, before, after, base, baseIds, decoded, w, q, b, i);
    }
  }

  lemma ContinuesItself(properties: seq<Property>, i: nat)
    requires i < |properties| && properties[i].renameFrom == ""
    ensures Continues(properties, properties[i]) == properties[i].name
  {
    assert properties[i] in properties;
  }

  lemma UntouchedKeepsProperty(c: Codec, entries: seq<Entry>, schema: Schema, before: Stored, after: Stored, base: Snapshot, baseIds: Ids,
                               decoded: Snapshot, defaults: string, target: Constraints, w: Done, b: Ref, i: nat)
    requires CommittedOver(c, entries, schema, before, after, base, baseIds, decoded, defaults, target, w)
    requires b in base.records && LeftAlone(c, entries, b)
    requires base.records[b].DefinitionRecord? && i < |base.records[b].definition.properties|
    requires base.records[b].definition.properties[i].renameFrom == ""
    ensures var p := base.records[b].definition.properties[i]; SamePropertyElement(base, decoded, before.nextId, b, p.name, b, p.name)
  {
    LeftAloneStays(c, entries, w.plan, w.made, b);
    ContinuedProperty(c, entries, schema, before, after, base, baseIds, decoded, defaults, target, w, b, b, i);
    ContinuesItself(base.records[b].definition.properties, i);
  }

  // An object that no entry names is the same element before and after, and so is each of its Properties.
  lemma UntouchedKeepsElements(c: Codec, entries: seq<Entry>, schema: Schema, before: Stored, after: Stored, base: Snapshot, baseIds: Ids,
                               decoded: Snapshot, defaults: string, target: Constraints, w: Done, b: Ref)
    requires CommittedOver(c, entries, schema, before, after, base, baseIds, decoded, defaults, target, w)
    requires b in base.records && LeftAlone(c, entries, b)
    ensures b in decoded.records && decoded.records[b].id == base.records[b].id
    ensures base.records[b].DefinitionRecord? ==>
              forall i {:trigger base.records[b].definition.properties[i]} :: 0 <= i < |base.records[b].definition.properties| ==>
                var p := base.records[b].definition.properties[i];
                p.renameFrom == "" ==> SamePropertyElement(base, decoded, before.nextId, b, p.name, b, p.name)
  {
    LeftAloneStays(c, entries, w.plan, w.made, b);
    ContinuedElement(c, entries, schema, before, after, base, baseIds, decoded, defaults, target, w, b, b);
    if base.records[b].DefinitionRecord? {
      forall i | 0 <= i < |base.records[b].definition.properties| && base.records[b].definition.properties[i].renameFrom == ""
        ensures var p := base.records[b].definition.properties[i]; SamePropertyElement(base, decoded, before.nextId, b, p.name, b, p.name)
      {
        UntouchedKeepsProperty(c, entries, schema, before, after, base, baseIds, decoded, defaults, target, w, b, i);
      }
    }
  }

  // An object that an entry updates is the same element, and each Property of its new body is a new element or the
  // element of the Property it continues.
  lemma UpdatedKeepsElements(c: Codec, entries: seq<Entry>, schema: Schema, before: Stored, after: Stored, base: Snapshot, baseIds: Ids,
                             decoded: Snapshot, defaults: string, target: Constraints, w: Done, k: nat, b: Ref, v: Value)
    requires CommittedOver(c, entries, schema, before, after, base, baseIds, decoded, defaults, target, w)
    requires k < |entries| && Updates(c, ObjectsOf(base), entries[k], b, v)
    ensures b in base.records && b in decoded.records && decoded.records[b].id == base.records[b].id
    ensures v.DefinitionValue? ==> base.records[b].DefinitionRecord?
    ensures v.DefinitionValue? ==>
              forall i {:trigger v.definition.properties[i]} :: 0 <= i < |v.definition.properties| ==>
                var p := v.definition.properties[i];
                SamePropertyElement(base, decoded, before.nextId, b, Continues(base.records[b].definition.properties, p), b, p.name)
  {
    UpdateStands(c, entries, w.plan, w.made, k, b, v);
    ContinuedElement(c, entries, schema, before, after, base, baseIds, decoded, defaults, target, w, b, b);
    if v.DefinitionValue? {
      ContinuedIsDefinition(c, ObjectsOf(base), entries, Progress(w.made.before, w.made.aliases, w.made.transitions), b, b);
      forall i | 0 <= i < |v.definition.properties|
        ensures var p := v.definition.properties[i];
                SamePropertyElement(base, decoded, before.nextId, b, Continues(base.records[b].definition.properties, p), b, p.name)
      {
        ContinuedProperty(c, entries, schema, before, after, base, baseIds, decoded, defaults, target, w, b, b, i);
      }
    }
  }

  // And so for a renamed object, under its new Ref.
  lemma RenamedKeepsElements(c: Codec, entries: seq<Entry>, schema: Schema, before: Stored, after: Stored, base: Snapshot, baseIds: Ids,
                             decoded: Snapshot, defaults: string, target: Constraints, w: Done, k: nat, b: Ref, t: Ref, v: Value)
    requires CommittedOver(c, entries, schema, before, after, base, baseIds, decoded, defaults, target, w)
    requires k < |entries| && MovesTo(c, ObjectsOf(base), entries[k], b, t, v)
    ensures b in base.records && t in decoded.records && decoded.records[t].id == base.records[b].id
    ensures v.DefinitionValue? ==> base.records[b].DefinitionRecord?
    ensures v.DefinitionValue? ==>
              forall i {:trigger v.definition.properties[i]} :: 0 <= i < |v.definition.properties| ==>
                var p := v.definition.properties[i];
                SamePropertyElement(base, decoded, before.nextId, b, Continues(base.records[b].definition.properties, p), t, p.name)
  {
    RenameStands(c, entries, w.plan, w.made, k, b, t, v);
    ContinuedElement(c, entries, schema, before, after, base, baseIds, decoded, defaults, target, w, t, b);
    if v.DefinitionValue? {
      assert ObjectMade(ObjectsOf(base), w.made, t, w.plan.objects[t]);
      FinalKeepsFields(ObjectsOf(base), w.made, t, w.plan.objects[t]);
      ContinuedIsDefinition(c, ObjectsOf(base), entries, Progress(w.made.before, w.made.aliases, w.made.transitions), t, b);
      forall i | 0 <= i < |v.definition.properties|
        ensures var p := v.definition.properties[i];
                SamePropertyElement(base, decoded, before.nextId, b, Continues(base.records[b].definition.properties, p), t, p.name)
      {
        ContinuedProperty(c, entries, schema, before, after, base, baseIds, decoded, defaults, target, w, t, b, i);
      }
    }
  }
}
