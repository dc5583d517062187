// Merge conflicts as callers see them (internal/kernel/evolution_merge_conflict_*.go): the mappers
// between native slot values and public values, in both directions.

module JsonValues {
  import opened Outcomes

  // JSON up to what two texts must share to be equal: numbers by their text, objects as maps.
  datatype Json = Null | Bool(b: bool) | Number(text: string) | Str(s: string) | Arr(items: seq<Json>) | Obj(members: map<string, Json>)

  // A possibly missing raw value.
  type Raw = Option<Json>

  // nativeMergeValuePresent.
  predicate Present(raw: Raw) {
    raw.Some? && raw.value != Null
  }

  // Reading an array as strings: a null item reads as the empty string.
  function StringItems(items: seq<Json>): Option<seq<string>> {
    if items == [] then Some([])
    else if !items[0].Str? && items[0] != Null then None
    else
      match StringItems(items[1..])
      case None => None
      case Some(rest) => Some([if items[0].Str? then items[0].s else ""] + rest)
  }

  function StringArray(strings: seq<string>): Json {
    Arr(seq(|strings|, i requires 0 <= i < |strings| => Str(strings[i])))
  }

  lemma {:induction false} StringItemsOf(strings: seq<string>)
    ensures StringItems(StringArray(strings).items) == Some(strings)
  {
    if strings != [] {
      StringItemsOf(strings[1..]);
      assert StringArray(strings).items[1..] == StringArray(strings[1..]).items;
      assert strings == [strings[0]] + strings[1..];
    }
  }
}

// One field of a native object shown as one public value: a Relationship's type, start or end, a
// Definition's labels, from or to.
module FieldLens {
  import opened Outcomes
  import opened JsonValues

  // Both sides of a conflict slot, natively and publicly.
  datatype Slot = Slot(ours: Raw, theirs: Raw, oursPublic: Raw, theirsPublic: Raw)

  // How the field's native content is shown, and what content a public value asks for.
  datatype Field = Field(name: string, view: Json -> Option<Json>, put: Json -> Option<Json>)

  // What put produces can be shown, and what is shown asks for the same again.
  ghost predicate Lawful(f: Field) {
    forall v {:trigger f.put(v)} :: f.put(v).Some? ==> f.view(f.put(v).value).Some? && f.put(f.view(f.put(v).value).value) == f.put(v)
  }

  // matchPublicValueToNativeSides.
  function MatchSides(slot: Slot, value: Json, allowNull: bool): Option<Json> {
    if allowNull && value == Null then Some(Null)
    else if slot.oursPublic == Some(value) && Present(slot.ours) then slot.ours
    else if slot.theirsPublic == Some(value) && Present(slot.theirs) then slot.theirs
    else None
  }

  // projectKnownNativeMergeSide.
  function KnownSide(slot: Slot, raw: Json): Option<Json> {
    if raw == Null then Some(Null)
    else if slot.ours == Some(raw) && slot.oursPublic.Some? then slot.oursPublic
    else if slot.theirs == Some(raw) && slot.theirsPublic.Some? then slot.theirsPublic
    else None
  }

  // relationshipNativeToPublic and graphDefinitionNativeToPublic.
  function ToPublic(slot: Slot, f: Field, raw: Json): Option<Json> {
    match KnownSide(slot, raw)
    case Some(known) => Some(known)
    case None => if raw.Obj? && f.name in raw.members then f.view(raw.members[f.name]) else None
  }

  function Template(slot: Slot): Option<Json> {
    if Present(slot.ours) then slot.ours else if Present(slot.theirs) then slot.theirs else None
  }

  // relationshipPublicToNative and graphDefinitionPublicToNative.
  function ToNative(slot: Slot, f: Field, value: Json): Option<Json> {
    match MatchSides(slot, value, false)
    case Some(side) => Some(side)
    case None =>
      var template := Template(slot);
      if template.None? || !template.value.Obj? then None
      else
        match f.put(value)
        case None => None
        case Some(content) => Some(Obj(template.value.members[f.name := content]))
  }

  ghost predicate Canonical(f: Field, content: Json) {
    exists v :: f.put(v) == Some(content)
  }

  // A side that is there has the field in canonical form and is shown by it.
  ghost predicate SideShown(f: Field, side: Raw, public: Raw) {
    && (Present(side) <==> public.Some?)
    && (Present(side) ==>
         && side.value.Obj? && f.name in side.value.members
         && Canonical(f, side.value.members[f.name]) && f.view(side.value.members[f.name]) == public)
  }

  ghost predicate Shown(slot: Slot, f: Field) {
    SideShown(f, slot.ours, slot.oursPublic) && SideShown(f, slot.theirs, slot.theirsPublic)
  }

  // raw differs from this side at most in the field.
  predicate SameElsewhere(f: Field, raw: Json, side: Raw) {
    Present(side) && side.value.Obj? ==> raw.Obj? && raw.members - {f.name} == side.value.members - {f.name}
  }

  lemma CanonicalTwice(f: Field, a: Json, b: Json)
    requires Lawful(f) && Canonical(f, a) && Canonical(f, b) && f.view(a) == f.view(b)
    ensures a == b && f.view(a).Some? && f.put(f.view(a).value) == Some(a)
  {
    var v :| f.put(v) == Some(a);
    var w :| f.put(w) == Some(b);
  }

  // A native object is shown by its field, whether or not it is one of the sides.
  lemma ShownByField(slot: Slot, f: Field, raw: Json)
    requires Shown(slot, f) && raw.Obj? && f.name in raw.members
    ensures ToPublic(slot, f, raw) == f.view(raw.members[f.name])
  {
  }

  // Every accepted public value comes back, in the form its own content is shown in.
  lemma PublicSurvives(slot: Slot, f: Field, value: Json)
    requires Lawful(f) && Shown(slot, f) && ToNative(slot, f, value).Some?
    ensures ToPublic(slot, f, ToNative(slot, f, value).value)
         == if MatchSides(slot, value, false).Some? then Some(value) else f.view(f.put(value).value)
  {
    ShownByField(slot, f, ToNative(slot, f, value).value);
  }

  // A native value in canonical form that differs from the sides at most in the field comes back.
  lemma NativeSurvives(slot: Slot, f: Field, raw: Json)
    requires Lawful(f) && Shown(slot, f) && Template(slot).Some? && raw.Obj? && f.name in raw.members && Canonical(f, raw.members[f.name])
    requires SameElsewhere(f, raw, slot.ours) && SameElsewhere(f, raw, slot.theirs)
    ensures ToPublic(slot, f, raw).Some? && ToNative(slot, f, ToPublic(slot, f, raw).value) == Some(raw)
  {
    ShownByField(slot, f, raw);
    var content := raw.members[f.name];
    CanonicalTwice(f, content, content);
    var value := f.view(content).value;
    if slot.oursPublic == Some(value) {
      CanonicalTwice(f, content, slot.ours.value.members[f.name]);
      SameObject(f, raw, slot.ours.value);
    } else if slot.theirsPublic == Some(value) {
      CanonicalTwice(f, content, slot.theirs.value.members[f.name]);
      SameObject(f, raw, slot.theirs.value);
    } else {
      Refilled(f, raw, Template(slot).value);
    }
  }

  lemma SameObject(f: Field, a: Json, b: Json)
    requires a.Obj? && b.Obj? && f.name in a.members && f.name in b.members && a.members[f.name] == b.members[f.name]
    requires a.members - {f.name} == b.members - {f.name}
    ensures a == b
  {
    Refilled(f, a, b);
    assert b.members[f.name := a.members[f.name]] == b.members;
  }

  lemma Refilled(f: Field, a: Json, b: Json)
    requires a.Obj? && b.Obj? && f.name in a.members && a.members - {f.name} == b.members - {f.name}
    ensures Obj(b.members[f.name := a.members[f.name]]) == a
  {
    var c := b.members[f.name := a.members[f.name]];
    forall k ensures (k in c <==> k in a.members) && (k in c ==> c[k] == a.members[k]) {
      if k != f.name {
        assert k in a.members <==> k in a.members - {f.name};
        assert k in b.members <==> k in b.members - {f.name};
        assert k in a.members ==> (a.members - {f.name})[k] == (b.members - {f.name})[k];
      }
    }
    assert c == a.members;
  }

  // A native value that differs elsewhere does not come back: the other fields are the template's.
  lemma OtherFieldsOfSides(slot: Slot, f: Field, value: Json)
    requires Lawful(f) && Shown(slot, f) && ToNative(slot, f, value).Some?
    requires Present(slot.ours) && Present(slot.theirs) ==> SameElsewhere(f, slot.ours.value, slot.theirs)
    ensures SameElsewhere(f, ToNative(slot, f, value).value, slot.ours) && SameElsewhere(f, ToNative(slot, f, value).value, slot.theirs)
  {
    var n := ToNative(slot, f, value).value;
    if MatchSides(slot, value, false).None? {
      var t := Template(slot).value;
      assert n.members - {f.name} == t.members - {f.name};
    }
  }
}

// The fields themselves.
module FieldForms {
  import opened Outcomes
  import opened Text
  import opened Sorting
  import opened JsonValues
  import opened FieldLens

  // A Relationship's type, start or end: a non-empty string that passes its own check.
  function StructuralField(name: string, valid: string -> bool): Field {
    Field(name, (j: Json) => Some(j), (j: Json) => if j.Str? && j.s != "" && valid(j.s) then Some(j) else None)
  }

  lemma StructuralLawful(name: string, valid: string -> bool)
    ensures Lawful(StructuralField(name, valid))
  {
  }

  // A Definition's endpoint: natively a label, publicly the Ref of a node Definition, or null.
  function EndpointField(name: string, refText: string -> string, parse: string -> Option<string>): Field {
    Field(name,
          (j: Json) => if j == Null then Some(Null) else if j.Str? && j.s != "" then Some(Str(refText(j.s))) else None,
          (j: Json) => if j == Null then Some(Null)
               else if j.Str? && parse(j.s).Some? then Some(Str(parse(j.s).value)) else None)
  }

  // Printing and parsing the Ref of a node Definition.
  ghost predicate RefCodec(refText: string -> string, parse: string -> Option<string>) {
    && (forall n {:trigger refText(n)} :: n != "" ==> parse(refText(n)) == Some(n))
    && (forall s {:trigger parse(s)} :: parse(s).Some? ==> parse(s).value != "")
  }

  lemma EndpointLawful(name: string, refText: string -> string, parse: string -> Option<string>)
    requires RefCodec(refText, parse)
    ensures Lawful(EndpointField(name, refText, parse))
  {
  }

  // A node Definition's further labels: no duplicates, each valid, kept in order.
  function LabelsView(j: Json): Option<Json> {
    match j
    case Null => Some(Null)
    case Arr(items) =>
      (match StringItems(items)
       case None => None
       case Some(labels) => Some(StringArray(labels)))
    case _ => None
  }

  function LabelsPut(valid: string -> bool, j: Json): Option<Json> {
    match j
    case Null => Some(Null)
    case Arr(items) =>
      (match StringItems(items)
       case None => None
       case Some(labels) =>
         if Distinct(labels) && forall i :: 0 <= i < |labels| ==> valid(labels[i]) then Some(StringArray(Sorted(labels, Itself))) else None)
    case _ => None
  }

  function LabelsField(name: string, valid: string -> bool): Field {
    Field(name, LabelsView, (j: Json) => LabelsPut(valid, j))
  }

  lemma SortedTwice(labels: seq<string>)
    requires Distinct(labels)
    ensures var s := Sorted(labels, Itself); Distinct(s) && Sorted(s, Itself) == s && forall x :: x in s <==> x in labels
  {
    var s := Sorted(labels, Itself);
    forall x ensures multiset(s)[x] <= 1 && (x in s <==> x in labels) {
      CountsOnce(labels, x);
      assert x in s <==> x in multiset(s);
      assert x in labels <==> x in multiset(labels);
    }
    DistinctByCount(s);
    SortedOrdered(labels, Itself);
    SortedOrdered(s, Itself);
    OrderedUnique(Sorted(s, Itself), s, Itself);
  }

  lemma LabelsPutTwice(valid: string -> bool, j: Json)
    requires LabelsPut(valid, j).Some?
    ensures LabelsView(LabelsPut(valid, j).value) == LabelsPut(valid, j) && LabelsPut(valid, LabelsPut(valid, j).value) == LabelsPut(valid, j)
  {
    if j.Arr? {
      var labels := StringItems(j.items).value;
      var s := Sorted(labels, Itself);
      SortedTwice(labels);
      StringItemsOf(s);
      forall i | 0 <= i < |s| ensures valid(s[i]) {
        assert s[i] in labels;
      }
    }
  }

  lemma LabelsLawful(name: string, valid: string -> bool)
    ensures Lawful(LabelsField(name, valid))
  {
    var f := LabelsField(name, valid);
    forall v | f.put(v).Some? ensures f.view(f.put(v).value).Some? && f.put(f.view(f.put(v).value).value) == f.put(v) {
      LabelsPutTwice(valid, v);
    }
  }
}

// Mappers for one Property, one label, one Domain member of an aggregate.
module AggregateLens {
  import opened Outcomes
  import opened Text
  import opened Sorting
  import opened JsonValues
  import opened FieldForms

  // ----- a Property among all Properties

  // normalizeKnowledgePropertyRaw: the canonical form, or None where it is refused.
  type Normalizer = Json -> Option<Json>

  // Canonical values are their own canonical form; null is no value.
  ghost predicate Settling(canon: Normalizer) {
    && canon(Null) == None
    && forall j {:trigger canon(j)} :: canon(j).Some? ==> canon(j).value != Null && canon(canon(j).value) == canon(j)
  }

  type Properties = map<string, Json>

  predicate AllCanonical(canon: Normalizer, p: Properties) {
    forall k :: k in p ==> canon(p[k]) == Some(p[k])
  }

  // decodeMergeKnowledgeProperties.
  function DecodeProperties(canon: Normalizer, j: Json): Option<Properties> {
    if !j.Obj? || exists k :: k in j.members && canon(j.members[k]).None? then None
    else Some(map k | k in j.members :: canon(j.members[k]).value)
  }

  // What both sides have besides the Property; None where they differ elsewhere.
  function CommonProperties(canon: Normalizer, property: string, ours: Json, theirs: Json): Option<Properties> {
    match DecodeProperties(canon, ours)
    case None => None
    case Some(left) =>
      match DecodeProperties(canon, theirs)
      case None => None
      case Some(right) => if left - {property} == right - {property} then Some(left - {property}) else None
  }

  function PropertyToPublic(canon: Normalizer, common: Properties, property: string, raw: Raw): Option<Json> {
    if !Present(raw) then Some(Obj(common))
    else if canon(raw.value).None? then None
    else Some(Obj(common[property := canon(raw.value).value]))
  }

  function PropertyToNative(canon: Normalizer, common: Properties, property: string, value: Json): Option<Json> {
    match DecodeProperties(canon, value)
    case None => None
    case Some(p) =>
      if p - {property} != common then None
      else if property !in p then Some(Null)
      else canon(p[property])
  }

  lemma CommonIsCanonical(canon: Normalizer, property: string, ours: Json, theirs: Json)
    requires Settling(canon) && CommonProperties(canon, property, ours, theirs).Some?
    ensures var common := CommonProperties(canon, property, ours, theirs).value; AllCanonical(canon, common) && property !in common
  {
    var left := DecodeProperties(canon, ours).value;
    forall k | k in left ensures canon(left[k]) == Some(left[k]) {
      assert canon(ours.members[k]).Some?;
    }
  }

  lemma DecodeCanonical(canon: Normalizer, p: Properties)
    requires AllCanonical(canon, p)
    ensures DecodeProperties(canon, Obj(p)) == Some(p)
  {
    assert (map k | k in p :: canon(p[k]).value) == p;
  }

  // The canonical native value comes back; an absent one comes back as null.
  lemma PropertyNativeSurvives(canon: Normalizer, common: Properties, property: string, raw: Raw)
    requires Settling(canon) && AllCanonical(canon, common) && property !in common && PropertyToPublic(canon, common, property, raw).Some?
    ensures PropertyToNative(canon, common, property, PropertyToPublic(canon, common, property, raw).value)
         == Some(if Present(raw) then canon(raw.value).value else Null)
  {
    if Present(raw) {
      var c := canon(raw.value).value;
      assert canon(c) == Some(c);
      var p := common[property := c];
      DecodeCanonical(canon, p);
      assert p - {property} == common;
    } else {
      DecodeCanonical(canon, common);
      assert common - {property} == common;
    }
  }

  // Every accepted public object comes back with its values in canonical form.
  lemma PropertyPublicSurvives(canon: Normalizer, common: Properties, property: string, value: Json)
    requires Settling(canon) && AllCanonical(canon, common) && property !in common && PropertyToNative(canon, common, property, value).Some?
    ensures PropertyToPublic(canon, common, property, PropertyToNative(canon, common, property, value))
         == Some(Obj(DecodeProperties(canon, value).value))
  {
    var p := DecodeProperties(canon, value).value;
    if property in p {
      assert canon(value.members[property]).Some?;
      assert canon(p[property]) == Some(p[property]) && p[property] != Null;
      assert p == (p - {property})[property := p[property]];
    } else {
      assert p - {property} == p;
    }
  }

  // ----- a label among all labels

  // decodeMergeLabels: a list without duplicates, put in order; JSON null is refused.
  function DecodeLabels(valid: string -> bool, j: Json): Option<seq<string>> {
    if !j.Arr? then None
    else
      match StringItems(j.items)
      case None => None
      case Some(labels) =>
        if Distinct(labels) && forall i :: 0 <= i < |labels| ==> valid(labels[i]) then Some(Sorted(labels, Itself)) else None
  }

  // An empty Go slice that was never allocated is written as null.
  function EncodeLabels(labels: seq<string>): Json {
    if labels == [] then Null else StringArray(labels)
  }

  function Without(labels: seq<string>, name: string): seq<string> {
    if labels == [] then []
    else (if labels[0] == name then [] else [labels[0]]) + Without(labels[1..], name)
  }

  function LabelToPublic(common: seq<string>, name: string, raw: Raw): Json {
    EncodeLabels(if Present(raw) then Sorted(common + [name], Itself) else common)
  }

  function LabelToNative(valid: string -> bool, common: seq<string>, name: string, value: Json): Option<Json> {
    match DecodeLabels(valid, value)
    case None => None
    case Some(labels) =>
      if Without(labels, name) != common then None
      else if name in labels then Some(Bool(true)) else Some(Null)
  }

  // What the two sides share: ordered, without duplicates, without the label itself.
  ghost predicate CommonLabels(valid: string -> bool, common: seq<string>, name: string) {
    && Distinct(common) && Sorted(common, Itself) == common && name !in common
    && valid(name) && forall i :: 0 <= i < |common| ==> valid(common[i])
  }

  lemma {:induction false} WithoutAbsent(labels: seq<string>, name: string)
    requires name !in labels
    ensures Without(labels, name) == labels
  {
    if labels != [] {
      WithoutAbsent(labels[1..], name);
      assert labels == [labels[0]] + labels[1..];
    }
  }

  lemma {:induction false} WithoutMembers(labels: seq<string>, name: string)
    ensures forall x :: x in Without(labels, name) <==> x in labels && x != name
    ensures Distinct(labels) ==> Distinct(Without(labels, name))
    ensures Ordered(labels, Itself) ==> Ordered(Without(labels, name), Itself)
  {
    if labels != [] {
      WithoutMembers(labels[1..], name);
      assert labels == [labels[0]] + labels[1..];
      forall i | 0 <= i < |Without(labels[1..], name)| ensures Without(labels[1..], name)[i] in labels[1..] {
      }
    }
  }

  // Two ordered lists without duplicates and with the same members are the same.
  lemma SameList(a: seq<string>, b: seq<string>)
    requires Distinct(a) && Distinct(b) && Ordered(a, Itself) && Ordered(b, Itself)
    requires forall x :: x in a <==> x in b
    ensures a == b
  {
    forall x ensures multiset(a)[x] == multiset(b)[x] {
      CountsOnce(a, x);
      CountsOnce(b, x);
    }
    OrderedUnique(a, b, Itself);
  }

  lemma AddedDistinct(common: seq<string>, name: string)
    requires Distinct(common) && name !in common
    ensures Distinct(common + [name]) && forall x :: x in common + [name] <==> x in common || x == name
  {
  }

  lemma WithoutAdded(common: seq<string>, name: string)
    requires Distinct(common) && Ordered(common, Itself) && name !in common
    ensures var labels := Sorted(common + [name], Itself);
            && Distinct(labels) && Sorted(labels, Itself) == labels && Without(labels, name) == common && name in labels
            && forall x :: x in labels <==> x in common || x == name
  {
    AddedDistinct(common, name);
    SortedTwice(common + [name]);
    SortedOrdered(common + [name], Itself);
    var labels := Sorted(common + [name], Itself);
    WithoutMembers(labels, name);
    SameList(Without(labels, name), common);
  }

  lemma DecodeListed(valid: string -> bool, labels: seq<string>)
    requires labels != [] && Distinct(labels) && Sorted(labels, Itself) == labels && forall i :: 0 <= i < |labels| ==> valid(labels[i])
    ensures DecodeLabels(valid, EncodeLabels(labels)) == Some(labels)
  {
    StringItemsOf(labels);
  }

  lemma PresentLabelSurvives(valid: string -> bool, common: seq<string>, name: string, raw: Raw)
    requires CommonLabels(valid, common, name) && Present(raw)
    ensures LabelToNative(valid, common, name, LabelToPublic(common, name, raw)) == Some(Bool(true))
  {
    var labels := Sorted(common + [name], Itself);
    SortedOrdered(common, Itself);
    WithoutAdded(common, name);
    forall i | 0 <= i < |labels| ensures valid(labels[i]) {
      assert labels[i] in labels;
    }
    DecodeListed(valid, labels);
    ListedMeans(valid, common, name, EncodeLabels(labels), labels);
  }

  lemma ListedMeans(valid: string -> bool, common: seq<string>, name: string, value: Json, labels: seq<string>)
    requires DecodeLabels(valid, value) == Some(labels) && Without(labels, name) == common && name in labels
    ensures LabelToNative(valid, common, name, value) == Some(Bool(true))
  {
  }

  lemma AbsentLabelSurvives(valid: string -> bool, common: seq<string>, name: string, raw: Raw)
    requires CommonLabels(valid, common, name) && !Present(raw)
    ensures common != [] ==> LabelToNative(valid, common, name, LabelToPublic(common, name, raw)) == Some(Null)
    ensures common == [] ==> LabelToNative(valid, common, name, LabelToPublic(common, name, raw)) == None
  {
    if common != [] {
      DecodeListed(valid, common);
      WithoutAbsent(common, name);
    }
  }

  // The native value comes back exactly when the public list is not empty: an empty one is shown as
  // null, which the way back refuses.
  lemma LabelNativeSurvives(valid: string -> bool, common: seq<string>, name: string, raw: Raw)
    requires CommonLabels(valid, common, name)
    ensures LabelToNative(valid, common, name, LabelToPublic(common, name, raw)) == Some(if Present(raw) then Bool(true) else Null) <==>
            (Present(raw) || common != [])
  {
    if Present(raw) {
      PresentLabelSurvives(valid, common, name, raw);
    } else {
      AbsentLabelSurvives(valid, common, name, raw);
    }
  }

  // Every accepted non-empty public list comes back in order.
  lemma LabelPublicSurvives(valid: string -> bool, common: seq<string>, name: string, value: Json)
    requires CommonLabels(valid, common, name) && LabelToNative(valid, common, name, value).Some?
    ensures LabelToPublic(common, name, LabelToNative(valid, common, name, value)) == EncodeLabels(DecodeLabels(valid, value).value)
  {
    var labels := DecodeLabels(valid, value).value;
    SortedTwice(StringItems(value.items).value);
    SortedOrdered(StringItems(value.items).value, Itself);
    if name in labels {
      SortedOrdered(common, Itself);
      WithoutAdded(common, name);
      SortedOrdered(common + [name], Itself);
      WithoutMembers(labels, name);
      SameList(labels, Sorted(common + [name], Itself));
    } else {
      WithoutAbsent(labels, name);
    }
  }

  // ----- a member among a Domain's members

  // togglePublicStringSet.
  method TogglePublicStringSet(base: Raw, value: string, present: bool) returns (r: Option<seq<string>>)
    ensures r.Some? <==> !Present(base) || (base.value.Arr? && StringItems(base.value.items).Some?)
    ensures r.Some? ==>
              var before := if Present(base) then StringItems(base.value.items).value else [];
              && Distinct(r.value) && Ordered(r.value, Itself)
              && forall x :: x in r.value <==> if x == value then present else x in before
  {
    var values: seq<string> := [];
    if base.Some? && base.value != Null {
      if !base.value.Arr? || StringItems(base.value.items).None? {
        return None;
      }
      values := StringItems(base.value.items).value;
    }
    var members := set x | x in values;
    if present {
      members := members + {value};
    } else {
      members := members - {value};
    }
    var sorted := SortedList(members, Itself);
    return Some(sorted);
  }

  // The way back for an includes edge: the edge itself, or none. A null value has no members.
  function IncludesToNative(ours: Raw, theirs: Raw, member: string, value: Json): Option<Json> {
    if value == Null then Some(Null)
    else if !value.Arr? then None
    else
      match StringItems(value.items)
      case None => None
      case Some(includes) =>
        if !Distinct(includes) then None
        else if member !in includes then Some(Null)
        else if Present(ours) then ours else if Present(theirs) then theirs else None
  }

  // Presence of the member survives the way there and back.
  lemma IncludesPresenceSurvives(ours: Raw, theirs: Raw, member: string, raw: Raw, shown: seq<string>)
    requires Present(ours) || Present(theirs)
    requires Distinct(shown) && (member in shown <==> Present(raw))
    ensures IncludesToNative(ours, theirs, member, StringArray(shown)).Some?
    ensures Present(IncludesToNative(ours, theirs, member, StringArray(shown))) <==> Present(raw)
  {
    StringItemsOf(shown);
  }

  // From native to public and back.
  method IncludesThereAndBack(base: Raw, ours: Raw, theirs: Raw, member: string, raw: Raw) returns (r: Option<Json>)
    requires Present(ours) || Present(theirs)
    requires !Present(base) || (base.value.Arr? && StringItems(base.value.items).Some?)
    ensures r.Some? && (Present(r) <==> Present(raw))
  {
    var shown := TogglePublicStringSet(base, member, Present(raw));
    IncludesPresenceSurvives(ours, theirs, member, raw, shown.value);
    r := IncludesToNative(ours, theirs, member, StringArray(shown.value));
  }
}
