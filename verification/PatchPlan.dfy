// planOntologyEntries (internal/kernel/patch_plan.go): Patch entries against a base snapshot.

// What the entries do to the set of objects.
module EntryPlan {
  import opened Outcomes
  import opened Model
  import opened BindingGraph
  import opened Hunks
  import opened PatchHunks
  import opened GitPatch
  import IE = IndexEntries
  import IP = IndexPlan

  // The text forms of Refs and objects; YAML and percent encoding are not modelled.
  datatype Codec = Codec(parseRef: string -> Option<Ref>, parseNew: string -> Option<Kind>,
                         render: Value -> string, parse: (Kind, string) -> Result<Value>)

  // A Definition's body has a Definition's kind.
  predicate Shaped(value: Value) {
    value.DefinitionValue? ==> IsDefinition(value.definition.kind)
  }

  // A new object continues nothing.
  ghost predicate NewIsNew(planned: PlannedObject) {
    planned.baseRef.None? ==> forall name :: name in planned.propertyBase ==> planned.propertyBase[name] == ""
  }

  ghost predicate SoundCodec(c: Codec) {
    (forall kind, text {:trigger c.parse(kind, text)} :: c.parse(kind, text).Success? ==>
         RefOf(c.parse(kind, text).value).kind == kind && Shaped(c.parse(kind, text).value))
  }

  function WithName(value: Value, name: string): Value {
    match value
    case DomainValue(d) => DomainValue(d.(name := name))
    case DefinitionValue(d) => DefinitionValue(d.(name := name))
  }

  type PlannedObjects = map<Ref, PlannedObject>

  // The object of the base as the plan starts with it.
  function Untouched(ref: Ref, value: Value): PlannedObject {
    PlannedObject(value, Some(ref),
                  match value
                  case DomainValue(_) => map[]
                  case DefinitionValue(d) => map name | name in PropertyNames(d.properties) :: name,
                  false)
  }

  function Edited(ref: Ref, before: Value, value: Value): PlannedObject {
    Untouched(ref, before).(value := value, explicitlyEdited := true)
  }

  function Added(value: Value): PlannedObject {
    PlannedObject(value, None,
                  match value
                  case DomainValue(_) => map[]
                  case DefinitionValue(d) => map name | name in PropertyNames(d.properties) :: "",
                  true)
  }

  // ----- what one entry asks for

  // The canonical body of a base object with the entry's hunks applied.
  ghost function EntryBody(c: Codec, base: Objects, e: Entry, b: Ref): Option<string>
    requires b in base
  {
    if e.hunks == [] then Some(c.render(base[b])) else PatchedText(e.hunks, c.render(base[b]))
  }

  // The patched body read under the name the object is to have.
  function NamedAs(c: Codec, e: Entry, b: Ref, parsed: Value): Option<Value> {
    if e.operation != Rename then if RefOf(parsed) == b then Some(parsed) else None
    else
      match c.parseRef(e.newTarget)
      case None => None
      case Some(target) =>
        var value := if RefOf(parsed) == b then WithName(parsed, target.name) else parsed;
        if target.kind == b.kind && RefOf(value) == target then Some(value) else None
  }

  // What an Update or Rename makes of its base object.
  ghost function EditedValue(c: Codec, base: Objects, e: Entry, b: Ref): (v: Option<Value>)
    requires b in base
    ensures v.Some? && e.operation != Rename ==> RefOf(v.value) == b
    ensures v.Some? && e.operation == Rename ==> c.parseRef(e.newTarget) == Some(RefOf(v.value)) && RefOf(v.value).kind == b.kind
  {
    var body := EntryBody(c, base, e, b);
    if body.None? || c.parse(b.kind, body.value).Failure? then None
    else NamedAs(c, e, b, c.parse(b.kind, body.value).value)
  }

  // What an Add creates.
  ghost function AddedValue(c: Codec, e: Entry): Option<Value> {
    var kind, body := c.parseNew(e.newTarget), PatchedText(e.hunks, "");
    if kind.None? || body.None? || c.parse(kind.value, body.value).Failure? then None
    else Some(c.parse(kind.value, body.value).value)
  }

  lemma EditedShaped(c: Codec, base: Objects, e: Entry, b: Ref)
    requires SoundCodec(c) && b in base && EditedValue(c, base, e, b).Some?
    ensures Shaped(EditedValue(c, base, e, b).value)
  {
    var body := EntryBody(c, base, e, b).value;
    assert c.parse(b.kind, body).Success?;
    NamedShaped(c, e, b, c.parse(b.kind, body).value);
  }

  lemma AddedShaped(c: Codec, e: Entry)
    requires SoundCodec(c) && AddedValue(c, e).Some?
    ensures Shaped(AddedValue(c, e).value)
  {
    assert c.parse(c.parseNew(e.newTarget).value, PatchedText(e.hunks, "").value).Success?;
  }

  lemma NamedShaped(c: Codec, e: Entry, b: Ref, parsed: Value)
    requires Shaped(parsed) && NamedAs(c, e, b, parsed).Some?
    ensures Shaped(NamedAs(c, e, b, parsed).value)
  {
  }

  // ----- which entry handles a base object

  predicate Touches(c: Codec, e: Entry, b: Ref) {
    e.operation != Add && c.parseRef(e.oldTarget) == Some(b)
  }

  function Handler(c: Codec, entries: seq<Entry>, k: nat, b: Ref): (i: Option<nat>)
    requires k <= |entries|
    ensures i.Some? ==> i.value < k && Touches(c, entries[i.value], b)
  {
    if k == 0 then None
    else if Touches(c, entries[k - 1], b) then Some(k - 1)
    else Handler(c, entries, k - 1, b)
  }

  lemma {:induction false} HandlerFinds(c: Codec, entries: seq<Entry>, k: nat, b: Ref, i: nat)
    requires i < k <= |entries| && Touches(c, entries[i], b)
    ensures Handler(c, entries, k, b).Some?
  {
    if !Touches(c, entries[k - 1], b) {
      HandlerFinds(c, entries, k - 1, b, i);
    }
  }

  // Where the first k entries put the base object b; None when they delete it.
  function Place(c: Codec, entries: seq<Entry>, k: nat, b: Ref): Option<Ref>
    requires k <= |entries|
  {
    match Handler(c, entries, k, b)
    case None => Some(b)
    case Some(i) =>
      match entries[i].operation
      case Delete => None
      case Rename => c.parseRef(entries[i].newTarget)
      case _ => Some(b)
  }

  function Transition(c: Codec, entries: seq<Entry>, k: nat, b: Ref): Option<Ref>
    requires k <= |entries|
  {
    var i := Handler(c, entries, k, b);
    if i.Some? && entries[i.value].operation == Rename then c.parseRef(entries[i.value].newTarget) else None
  }

  // A Rename onto this Ref.
  predicate RenamesOnto(c: Codec, e: Entry, r: Ref) {
    e.operation == Rename && c.parseRef(e.newTarget) == Some(r)
  }

  predicate Overtaken(c: Codec, entries: seq<Entry>, i: nat, k: nat, r: Ref)
    requires k <= |entries|
  {
    exists j {:trigger entries[j]} :: i < j < k && RenamesOnto(c, entries[j], r)
  }

  // ----- the plan after k entries

  datatype Progress = Progress(objects: PlannedObjects, aliases: map<string, Ref>, transitions: map<Ref, Ref>)

  // The base object is untouched, deleted by its entry, or stands at its place as its entry edits it.
  ghost predicate BaseAccounted(c: Codec, base: Objects, entries: seq<Entry>, k: nat, p: Progress, b: Ref)
    requires k <= |entries|
  {
    b in base ==>
      match Handler(c, entries, k, b)
      case None => b in p.objects && p.objects[b] == Untouched(b, base[b])
      case Some(i) =>
        if entries[i].operation == Delete then EntryBody(c, base, entries[i], b) == Some("")
        else
          var v := EditedValue(c, base, entries[i], b);
          v.Some? && RefOf(v.value) in p.objects && p.objects[RefOf(v.value)] == Edited(b, base[b], v.value)
  }

  // A planned object that continues a base object stands at that object's place; any other was added.
  ghost predicate ObjectAccounted(c: Codec, base: Objects, entries: seq<Entry>, k: nat, p: Progress, r: Ref)
    requires k <= |entries|
  {
    r in p.objects ==>
      && RefOf(p.objects[r].value) == r && Shaped(p.objects[r].value) && NewIsNew(p.objects[r])
      && (p.objects[r].baseRef.Some? ==>
           var b := p.objects[r].baseRef.value; b in base && b.kind == r.kind && Place(c, entries, k, b) == Some(r))
      && (p.objects[r].baseRef.None? ==> exists i {:trigger entries[i]} :: 0 <= i < k && Adds(c, entries[i], r, p.objects[r]))
  }

  ghost predicate Adds(c: Codec, e: Entry, r: Ref, planned: PlannedObject) {
    e.operation == Add && AddedValue(c, e).Some? && RefOf(AddedValue(c, e).value) == r && planned == Added(AddedValue(c, e).value)
  }

  // Its alias names the object the Add creates, which stands there until a Rename takes its Ref.
  ghost predicate AddAccounted(c: Codec, entries: seq<Entry>, k: nat, p: Progress, i: nat)
    requires k <= |entries|
  {
    i < k && entries[i].operation == Add ==>
      var e, v := entries[i], AddedValue(c, entries[i]);
      && v.Some? && e.newTarget in p.aliases && p.aliases[e.newTarget] == RefOf(v.value) && RefOf(v.value) in p.objects
      && (if Overtaken(c, entries, i, k, RefOf(v.value))
          then p.objects[RefOf(v.value)].baseRef.Some? && p.objects[RefOf(v.value)].explicitlyEdited
          else p.objects[RefOf(v.value)] == Added(v.value))
  }

  ghost predicate AliasAccounted(entries: seq<Entry>, k: nat, p: Progress, alias: string)
    requires k <= |entries|
  {
    alias in p.aliases <==> exists i {:trigger entries[i]} :: 0 <= i < k && entries[i].operation == Add && entries[i].newTarget == alias
  }

  ghost predicate TransitionAccounted(c: Codec, base: Objects, entries: seq<Entry>, k: nat, p: Progress, b: Ref)
    requires k <= |entries|
  {
    (b in p.transitions <==> b in base && Transition(c, entries, k, b).Some?) && (b in p.transitions ==> Transition(c, entries, k, b) == Some(p.transitions[b]))
  }

  // No base object is named by two of the first k entries.
  ghost predicate NamedOnce(c: Codec, entries: seq<Entry>, k: nat)
    requires k <= |entries|
  {
    forall i, j, b {:trigger Touches(c, entries[i], b), Touches(c, entries[j], b)} ::
      0 <= i < j < k && Touches(c, entries[i], b) ==> !Touches(c, entries[j], b)
  }

  datatype Part = Names | Bases | Standing | Additions | Aliases | Renames

  ghost predicate Holds(part: Part, c: Codec, base: Objects, entries: seq<Entry>, k: nat, p: Progress) {
    k <= |entries| &&
    match part
    case Names => NamedOnce(c, entries, k)
    case Bases => forall b {:trigger BaseAccounted(c, base, entries, k, p, b)} :: BaseAccounted(c, base, entries, k, p, b)
    case Standing => forall r {:trigger ObjectAccounted(c, base, entries, k, p, r)} :: ObjectAccounted(c, base, entries, k, p, r)
    case Additions => forall i {:trigger AddAccounted(c, entries, k, p, i)} :: AddAccounted(c, entries, k, p, i)
    case Aliases => forall a {:trigger AliasAccounted(entries, k, p, a)} :: AliasAccounted(entries, k, p, a)
    case Renames => forall b {:trigger TransitionAccounted(c, base, entries, k, p, b)} :: TransitionAccounted(c, base, entries, k, p, b)
  }

  // The plan is what the first k entries say.
  ghost predicate Accounted(c: Codec, base: Objects, entries: seq<Entry>, k: nat, p: Progress) {
    forall part: Part {:trigger Holds(part, c, base, entries, k, p)} :: Holds(part, c, base, entries, k, p)
  }

  lemma Accounts(c: Codec, base: Objects, entries: seq<Entry>, k: nat, p: Progress)
    requires Accounted(c, base, entries, k, p)
    ensures k <= |entries| && NamedOnce(c, entries, k)
  {
    assert Holds(Names, c, base, entries, k, p);
  }

  lemma AtBase(c: Codec, base: Objects, entries: seq<Entry>, k: nat, p: Progress, b: Ref)
    requires Accounted(c, base, entries, k, p)
    ensures k <= |entries| && BaseAccounted(c, base, entries, k, p, b)
  {
    assert Holds(Bases, c, base, entries, k, p);
  }

  lemma AtObject(c: Codec, base: Objects, entries: seq<Entry>, k: nat, p: Progress, r: Ref)
    requires Accounted(c, base, entries, k, p)
    ensures k <= |entries| && ObjectAccounted(c, base, entries, k, p, r)
  {
    assert Holds(Standing, c, base, entries, k, p);
  }

  lemma AtAdd(c: Codec, base: Objects, entries: seq<Entry>, k: nat, p: Progress, i: nat)
    requires Accounted(c, base, entries, k, p)
    ensures k <= |entries| && AddAccounted(c, entries, k, p, i)
  {
    assert Holds(Additions, c, base, entries, k, p);
  }

  lemma AtAlias(c: Codec, base: Objects, entries: seq<Entry>, k: nat, p: Progress, a: string)
    requires Accounted(c, base, entries, k, p)
    ensures k <= |entries| && AliasAccounted(entries, k, p, a)
  {
    assert Holds(Aliases, c, base, entries, k, p);
  }

  lemma AtTransition(c: Codec, base: Objects, entries: seq<Entry>, k: nat, p: Progress, b: Ref)
    requires Accounted(c, base, entries, k, p)
    ensures k <= |entries| && TransitionAccounted(c, base, entries, k, p, b)
  {
    assert Holds(Renames, c, base, entries, k, p);
  }

  lemma AccountedWhen(c: Codec, base: Objects, entries: seq<Entry>, k: nat, p: Progress)
    requires k <= |entries| && NamedOnce(c, entries, k)
    requires forall b {:trigger BaseAccounted(c, base, entries, k, p, b)} :: BaseAccounted(c, base, entries, k, p, b)
    requires forall r {:trigger ObjectAccounted(c, base, entries, k, p, r)} :: ObjectAccounted(c, base, entries, k, p, r)
    requires forall i {:trigger AddAccounted(c, entries, k, p, i)} :: AddAccounted(c, entries, k, p, i)
    requires forall a {:trigger AliasAccounted(entries, k, p, a)} :: AliasAccounted(entries, k, p, a)
    requires forall b {:trigger TransitionAccounted(c, base, entries, k, p, b)} :: TransitionAccounted(c, base, entries, k, p, b)
    ensures Accounted(c, base, entries, k, p)
  {
    forall part: Part ensures Holds(part, c, base, entries, k, p) {
    }
  }

  // What holds of an edited base object.
  lemma EditedAt(c: Codec, base: Objects, entries: seq<Entry>, k: nat, p: Progress, b: Ref)
    requires k <= |entries| && Accounted(c, base, entries, k, p) && b in base
    ensures Place(c, entries, k, b).Some? ==>
              var r := Place(c, entries, k, b).value;
              r in p.objects && p.objects[r].baseRef == Some(b) && p.objects[r].explicitlyEdited == Handler(c, entries, k, b).Some?
    ensures Handler(c, entries, k, b).Some? && entries[Handler(c, entries, k, b).value].operation != Delete ==> Place(c, entries, k, b).Some?
  {
    AtBase(c, base, entries, k, p, b);
  }

  // Every base object is deleted by exactly one entry or continued by exactly one planned object,
  // which stands at the rename's target or under the old name.
  lemma EachBaseObjectOnce(c: Codec, base: Objects, entries: seq<Entry>, p: Progress, b: Ref)
    requires Accounted(c, base, entries, |entries|, p) && b in base
    ensures (exists i :: 0 <= i < |entries| && Touches(c, entries[i], b) && entries[i].operation == Delete) <==>
            (forall r :: r in p.objects ==> p.objects[r].baseRef != Some(b))
    ensures forall r, q :: r in p.objects && q in p.objects && p.objects[r].baseRef == Some(b) && p.objects[q].baseRef == Some(b) ==> r == q
    ensures forall r :: r in p.objects && p.objects[r].baseRef == Some(b) ==> r == if b in p.transitions then p.transitions[b] else b
  {
    Accounts(c, base, entries, |entries|, p);
    EditedAt(c, base, entries, |entries|, p, b);
    AtTransition(c, base, entries, |entries|, p, b);
    forall r | r in p.objects && p.objects[r].baseRef == Some(b) ensures Place(c, entries, |entries|, b) == Some(r) {
      AtObject(c, base, entries, |entries|, p, r);
    }
    if i :| 0 <= i < |entries| && Touches(c, entries[i], b) && entries[i].operation == Delete {
      HandlerFinds(c, entries, |entries|, b, i);
      OneHandler(c, entries, b, i, Handler(c, entries, |entries|, b).value);
    }
  }

  lemma OneHandler(c: Codec, entries: seq<Entry>, b: Ref, i: nat, j: nat)
    requires NamedOnce(c, entries, |entries|) && i < |entries| && j < |entries|
    requires Touches(c, entries[i], b) && Touches(c, entries[j], b)
    ensures i == j
  {
  }

  // ----- the entries leave no choice

  lemma SameObject(c: Codec, base: Objects, entries: seq<Entry>, k: nat, p: Progress, q: Progress, r: Ref)
    requires k <= |entries| && Accounted(c, base, entries, k, p) && Accounted(c, base, entries, k, q) && r in p.objects
    ensures r in q.objects && q.objects[r] == p.objects[r]
  {
    AtObject(c, base, entries, k, p, r);
    match p.objects[r].baseRef {
      case Some(b) =>
        AtBase(c, base, entries, k, p, b);
        AtBase(c, base, entries, k, q, b);
      case None =>
        var i :| 0 <= i < k && Adds(c, entries[i], r, p.objects[r]);
        AtAdd(c, base, entries, k, p, i);
        AtAdd(c, base, entries, k, q, i);
    }
  }

  lemma SameAlias(c: Codec, base: Objects, entries: seq<Entry>, k: nat, p: Progress, q: Progress, alias: string)
    requires k <= |entries| && Accounted(c, base, entries, k, p) && Accounted(c, base, entries, k, q) && alias in p.aliases
    ensures alias in q.aliases && q.aliases[alias] == p.aliases[alias]
  {
    AtAlias(c, base, entries, k, p, alias);
    var i :| 0 <= i < k && entries[i].operation == Add && entries[i].newTarget == alias;
    AtAdd(c, base, entries, k, p, i);
    AtAdd(c, base, entries, k, q, i);
  }

  // Two plans that the same entries account for are one plan.
  lemma AccountedUnique(c: Codec, base: Objects, entries: seq<Entry>, k: nat, p: Progress, q: Progress)
    requires k <= |entries| && Accounted(c, base, entries, k, p) && Accounted(c, base, entries, k, q)
    ensures p == q
  {
    forall r ensures (r in p.objects <==> r in q.objects) && (r in p.objects ==> p.objects[r] == q.objects[r]) {
      if r in p.objects {
        SameObject(c, base, entries, k, p, q, r);
      } else if r in q.objects {
        SameObject(c, base, entries, k, q, p, r);
      }
    }
    assert p.objects == q.objects;
    forall a ensures (a in p.aliases <==> a in q.aliases) && (a in p.aliases ==> p.aliases[a] == q.aliases[a]) {
      if a in p.aliases {
        SameAlias(c, base, entries, k, p, q, a);
      } else if a in q.aliases {
        SameAlias(c, base, entries, k, q, p, a);
      }
    }
    assert p.aliases == q.aliases;
    forall b ensures (b in p.transitions <==> b in q.transitions) && (b in p.transitions ==> p.transitions[b] == q.transitions[b]) {
      AtTransition(c, base, entries, k, p, b);
      AtTransition(c, base, entries, k, q, b);
    }
    assert p.transitions == q.transitions;
  }

  // ----- when an entry is refused

  // The Ref belongs to another base object.
  predicate Occupied(p: Progress, r: Ref, b: Ref) {
    r in p.objects && p.objects[r].baseRef.Some? && p.objects[r].baseRef.value != b
  }

  ghost predicate AddRefused(c: Codec, p: Progress, e: Entry) {
    e.newTarget in p.aliases || AddedValue(c, e).None? || RefOf(AddedValue(c, e).value) in p.objects
  }

  ghost predicate EditRefused(c: Codec, base: Objects, p: Progress, e: Entry, b: Ref)
    requires b in base
  {
    if e.operation == Delete then EntryBody(c, base, e, b) != Some("")
    else
      var v := EditedValue(c, base, e, b);
      v.None? || (e.operation == Rename && Occupied(p, RefOf(v.value), b))
  }

  // The next entry cannot be applied.
  ghost predicate Refused(c: Codec, base: Objects, entries: seq<Entry>, k: nat, p: Progress)
    requires k < |entries|
  {
    var e := entries[k];
    if e.operation == Add then AddRefused(c, p, e)
    else
      match c.parseRef(e.oldTarget)
      case None => true
      case Some(b) => Handler(c, entries, k, b).Some? || b !in base || EditRefused(c, base, p, e, b)
  }

  ghost predicate AcceptedTo(c: Codec, base: Objects, entries: seq<Entry>, n: nat) {
    forall k, p {:trigger Accounted(c, base, entries, k, p)} ::
      0 <= k < n && k < |entries| && Accounted(c, base, entries, k, p) ==> !Refused(c, base, entries, k, p)
  }

  // No entry is refused on the way.
  ghost predicate Accepted(c: Codec, base: Objects, entries: seq<Entry>) {
    AcceptedTo(c, base, entries, |entries|)
  }

  lemma AcceptedMore(c: Codec, base: Objects, entries: seq<Entry>, k: nat, p: Progress)
    requires AcceptedTo(c, base, entries, k) && k < |entries| && Accounted(c, base, entries, k, p)
    ensures Refused(c, base, entries, k, p) ==> !Accepted(c, base, entries)
    ensures !Refused(c, base, entries, k, p) ==> AcceptedTo(c, base, entries, k + 1)
  {
    forall i, q | 0 <= i < k + 1 && i < |entries| && Accounted(c, base, entries, i, q) && !Refused(c, base, entries, k, p) ensures !Refused(c, base, entries, i, q) {
      if i == k {
        AccountedUnique(c, base, entries, k, p, q);
      }
    }
  }

  // ----- one entry

  // The entry names a base object for the first time.
  ghost predicate FirstNamed(c: Codec, base: Objects, entries: seq<Entry>, k: nat, b: Ref) {
    k < |entries| && b in base && Touches(c, entries[k], b) && Handler(c, entries, k, b).None?
  }

  lemma NamedOnceMore(c: Codec, entries: seq<Entry>, k: nat)
    requires k < |entries| && NamedOnce(c, entries, k)
    requires forall b :: Touches(c, entries[k], b) ==> Handler(c, entries, k, b).None?
    ensures NamedOnce(c, entries, k + 1)
  {
    forall i, j, b | 0 <= i < j < k + 1 && Touches(c, entries[i], b) ensures !Touches(c, entries[j], b) {
      if j == k {
        HandlerFinds(c, entries, k, b, i);
      }
    }
  }

  // The base objects that the first k entries name.
  ghost predicate Used(c: Codec, entries: seq<Entry>, k: nat, used: set<Ref>)
    requires k <= |entries|
  {
    forall b {:trigger Handler(c, entries, k, b)} :: b in used <==> Handler(c, entries, k, b).Some?
  }

  lemma UsedMore(c: Codec, entries: seq<Entry>, k: nat, n: nat, used: set<Ref>, more: set<Ref>)
    requires k < |entries| && n == k + 1 && Used(c, entries, k, used)
    requires forall b :: Touches(c, entries[k], b) <==> b in more
    ensures Used(c, entries, n, used + more)
  {
    forall b ensures b in used + more <==> Handler(c, entries, n, b).Some? {
      assert b in used <==> Handler(c, entries, k, b).Some?;
    }
  }

  // The plan with the object an Add creates.
  ghost function AddStep(p: Progress, e: Entry, value: Value): Progress {
    Progress(p.objects[RefOf(value) := Added(value)], p.aliases[e.newTarget := RefOf(value)], p.transitions)
  }

  // Update leaves the object where it is, Rename moves it; an added object at the target gives way.
  ghost function EditStep(p: Progress, base: Objects, e: Entry, b: Ref, value: Value): Progress
    requires b in base
  {
    Progress((p.objects - {b})[RefOf(value) := Edited(b, base[b], value)], p.aliases,
             if e.operation == Rename then p.transitions[b := RefOf(value)] else p.transitions)
  }

  ghost function DeleteStep(p: Progress, b: Ref): Progress {
    p.(objects := p.objects - {b})
  }

  lemma AliasMore(c: Codec, base: Objects, entries: seq<Entry>, k: nat, n: nat, p: Progress, q: Progress, a: string)
    requires k < |entries| && n == k + 1 && Accounted(c, base, entries, k, p)
    requires q.aliases.Keys == p.aliases.Keys + if entries[k].operation == Add then {entries[k].newTarget} else {}
    ensures AliasAccounted(entries, n, q, a)
  {
    AtAlias(c, base, entries, k, p, a);
    if a in p.aliases {
      var i :| 0 <= i < k && entries[i].operation == Add && entries[i].newTarget == a;
      assert 0 <= i < n;
    }
    if exists i {:trigger entries[i]} :: 0 <= i < n && entries[i].operation == Add && entries[i].newTarget == a {
      var i :| 0 <= i < n && entries[i].operation == Add && entries[i].newTarget == a;
      assert i < k ==> a in p.aliases;
    }
  }

  lemma OvertakenMore(c: Codec, entries: seq<Entry>, i: nat, k: nat, r: Ref)
    requires i < k < |entries|
    ensures Overtaken(c, entries, i, k + 1, r) <==> Overtaken(c, entries, i, k, r) || RenamesOnto(c, entries[k], r)
  {
    if Overtaken(c, entries, i, k, r) {
      var j :| i < j < k && RenamesOnto(c, entries[j], r);
      assert i < j < k + 1;
    }
  }

  lemma AddKeepsAdds(c: Codec, base: Objects, entries: seq<Entry>, k: nat, p: Progress, value: Value, i: nat)
    requires k < |entries| && Accounted(c, base, entries, k, p) && entries[k].operation == Add && !AddRefused(c, p, entries[k])
    requires AddedValue(c, entries[k]) == Some(value)
    ensures AddAccounted(c, entries, k + 1, AddStep(p, entries[k], value), i)
  {
    if i < k && entries[i].operation == Add {
      AtAdd(c, base, entries, k, p, i);
      OldAddKept(c, entries, k, p, value, i);
    } else if i == k {
      NewAddKept(c, entries, k, p, value);
    }
  }

  lemma NewAddKept(c: Codec, entries: seq<Entry>, k: nat, p: Progress, value: Value)
    requires k < |entries| && entries[k].operation == Add && AddedValue(c, entries[k]) == Some(value)
    ensures AddAccounted(c, entries, k + 1, AddStep(p, entries[k], value), k)
  {
  }

  lemma OldAddKept(c: Codec, entries: seq<Entry>, k: nat, p: Progress, value: Value, i: nat)
    requires i < k < |entries| && entries[i].operation == Add && entries[k].operation == Add && AddAccounted(c, entries, k, p, i)
    requires entries[k].newTarget !in p.aliases && RefOf(value) !in p.objects
    ensures AddAccounted(c, entries, k + 1, AddStep(p, entries[k], value), i)
  {
    OvertakenMore(c, entries, i, k, RefOf(AddedValue(c, entries[i]).value));
  }

  lemma AddKeepsObjects(c: Codec, base: Objects, entries: seq<Entry>, k: nat, p: Progress, value: Value, s: Ref)
    requires SoundCodec(c) && Accounted(c, base, entries, k, p) && k < |entries| && entries[k].operation == Add && !AddRefused(c, p, entries[k])
    requires AddedValue(c, entries[k]) == Some(value)
    ensures ObjectAccounted(c, base, entries, k + 1, AddStep(p, entries[k], value), s)
  {
    AtObject(c, base, entries, k, p, s);
    if s == RefOf(value) {
      AddedShaped(c, entries[k]);
      assert Adds(c, entries[k], s, AddStep(p, entries[k], value).objects[s]);
    }
  }

  lemma AddKeeps(c: Codec, base: Objects, entries: seq<Entry>, k: nat, p: Progress, value: Value)
    requires SoundCodec(c) && Accounted(c, base, entries, k, p) && k < |entries| && entries[k].operation == Add && !AddRefused(c, p, entries[k])
    requires AddedValue(c, entries[k]) == Some(value)
    ensures Accounted(c, base, entries, k + 1, AddStep(p, entries[k], value))
  {
    var q, n := AddStep(p, entries[k], value), k + 1;
    Accounts(c, base, entries, k, p);
    NamedOnceMore(c, entries, k);
    forall b ensures BaseAccounted(c, base, entries, n, q, b) {
      AtBase(c, base, entries, k, p, b);
    }
    forall s ensures ObjectAccounted(c, base, entries, n, q, s) {
      AddKeepsObjects(c, base, entries, k, p, value, s);
    }
    forall i: nat ensures AddAccounted(c, entries, n, q, i) {
      AddKeepsAdds(c, base, entries, k, p, value, i);
    }
    forall a ensures AliasAccounted(entries, n, q, a) {
      AliasMore(c, base, entries, k, n, p, q, a);
    }
    forall b ensures TransitionAccounted(c, base, entries, n, q, b) {
      AtTransition(c, base, entries, k, p, b);
    }
    AccountedWhen(c, base, entries, n, q);
  }

  lemma StillThere(c: Codec, base: Objects, entries: seq<Entry>, k: nat, p: Progress, b: Ref)
    requires Accounted(c, base, entries, k, p) && FirstNamed(c, base, entries, k, b)
    ensures b in p.objects && p.objects[b] == Untouched(b, base[b]) && b !in p.transitions
  {
    AtBase(c, base, entries, k, p, b);
    AtTransition(c, base, entries, k, p, b);
  }

  // No Add created the object that is still untouched.
  lemma AddedElsewhere(c: Codec, base: Objects, entries: seq<Entry>, k: nat, p: Progress, b: Ref, i: nat)
    requires Accounted(c, base, entries, k, p) && FirstNamed(c, base, entries, k, b)
    requires i < k && entries[i].operation == Add
    ensures AddedValue(c, entries[i]).Some? && RefOf(AddedValue(c, entries[i]).value) != b
  {
    StillThere(c, base, entries, k, p, b);
    AtAdd(c, base, entries, k, p, i);
  }

  lemma DeleteKeeps(c: Codec, base: Objects, entries: seq<Entry>, k: nat, p: Progress, b: Ref)
    requires Accounted(c, base, entries, k, p) && FirstNamed(c, base, entries, k, b) && entries[k].operation == Delete
    requires EntryBody(c, base, entries[k], b) == Some("")
    ensures Accounted(c, base, entries, k + 1, DeleteStep(p, b))
  {
    var q, n := DeleteStep(p, b), k + 1;
    StillThere(c, base, entries, k, p, b);
    Accounts(c, base, entries, k, p);
    NamedOnceMore(c, entries, k);
    forall a ensures BaseAccounted(c, base, entries, n, q, a) {
      AtBase(c, base, entries, k, p, a);
    }
    forall s ensures ObjectAccounted(c, base, entries, n, q, s) {
      AtObject(c, base, entries, k, p, s);
    }
    forall i: nat ensures AddAccounted(c, entries, n, q, i) {
      AtAdd(c, base, entries, k, p, i);
      if i < k && entries[i].operation == Add {
        AddedElsewhere(c, base, entries, k, p, b, i);
        OvertakenMore(c, entries, i, k, RefOf(AddedValue(c, entries[i]).value));
      }
    }
    forall a ensures AliasAccounted(entries, n, q, a) {
      AliasMore(c, base, entries, k, n, p, q, a);
    }
    forall a ensures TransitionAccounted(c, base, entries, n, q, a) {
      AtTransition(c, base, entries, k, p, a);
    }
    AccountedWhen(c, base, entries, n, q);
  }

  lemma EditKeepsBases(c: Codec, base: Objects, entries: seq<Entry>, k: nat, p: Progress, b: Ref, value: Value, a: Ref)
    requires Accounted(c, base, entries, k, p) && FirstNamed(c, base, entries, k, b)
    requires (entries[k].operation == Update || entries[k].operation == Rename) && !EditRefused(c, base, p, entries[k], b)
    requires EditedValue(c, base, entries[k], b) == Some(value)
    ensures BaseAccounted(c, base, entries, k + 1, EditStep(p, base, entries[k], b, value), a)
  {
    AtBase(c, base, entries, k, p, a);
    StillThere(c, base, entries, k, p, b);
  }

  lemma EditKeepsObjects(c: Codec, base: Objects, entries: seq<Entry>, k: nat, p: Progress, b: Ref, value: Value, s: Ref)
    requires SoundCodec(c) && Accounted(c, base, entries, k, p) && FirstNamed(c, base, entries, k, b)
    requires (entries[k].operation == Update || entries[k].operation == Rename) && !EditRefused(c, base, p, entries[k], b)
    requires EditedValue(c, base, entries[k], b) == Some(value)
    ensures ObjectAccounted(c, base, entries, k + 1, EditStep(p, base, entries[k], b, value), s)
  {
    AtObject(c, base, entries, k, p, s);
    StillThere(c, base, entries, k, p, b);
    EditedShaped(c, base, entries[k], b);
  }

  lemma EditKeepsAdds(c: Codec, base: Objects, entries: seq<Entry>, k: nat, p: Progress, b: Ref, value: Value, i: nat)
    requires Accounted(c, base, entries, k, p) && FirstNamed(c, base, entries, k, b)
    requires (entries[k].operation == Update || entries[k].operation == Rename) && !EditRefused(c, base, p, entries[k], b)
    requires EditedValue(c, base, entries[k], b) == Some(value)
    ensures AddAccounted(c, entries, k + 1, EditStep(p, base, entries[k], b, value), i)
  {
    AtAdd(c, base, entries, k, p, i);
    if i < k && entries[i].operation == Add {
      AddedElsewhere(c, base, entries, k, p, b, i);
      OvertakenMore(c, entries, i, k, RefOf(AddedValue(c, entries[i]).value));
    }
  }

  lemma EditKeeps(c: Codec, base: Objects, entries: seq<Entry>, k: nat, p: Progress, b: Ref, value: Value)
    requires SoundCodec(c) && Accounted(c, base, entries, k, p) && FirstNamed(c, base, entries, k, b)
    requires (entries[k].operation == Update || entries[k].operation == Rename) && !EditRefused(c, base, p, entries[k], b)
    requires EditedValue(c, base, entries[k], b) == Some(value)
    ensures Accounted(c, base, entries, k + 1, EditStep(p, base, entries[k], b, value))
  {
    var q, n := EditStep(p, base, entries[k], b, value), k + 1;
    Accounts(c, base, entries, k, p);
    NamedOnceMore(c, entries, k);
    forall a ensures BaseAccounted(c, base, entries, n, q, a) {
      EditKeepsBases(c, base, entries, k, p, b, value, a);
    }
    forall s ensures ObjectAccounted(c, base, entries, n, q, s) {
      EditKeepsObjects(c, base, entries, k, p, b, value, s);
    }
    forall i: nat ensures AddAccounted(c, entries, n, q, i) {
      EditKeepsAdds(c, base, entries, k, p, b, value, i);
    }
    forall a ensures AliasAccounted(entries, n, q, a) {
      AliasMore(c, base, entries, k, n, p, q, a);
    }
    forall a ensures TransitionAccounted(c, base, entries, n, q, a) {
      AtTransition(c, base, entries, k, p, a);
    }
    AccountedWhen(c, base, entries, n, q);
  }

  function Outset(base: Objects): Progress {
    Progress(map r | r in base :: Untouched(r, base[r]), map[], map[])
  }

  lemma StartAccounted(c: Codec, base: Objects, entries: seq<Entry>)
    requires WellNamed(base)
    ensures Accounted(c, base, entries, 0, Outset(base))
  {
    forall b ensures BaseAccounted(c, base, entries, 0, Outset(base), b) {
    }
    forall r ensures ObjectAccounted(c, base, entries, 0, Outset(base), r) {
    }
    AccountedWhen(c, base, entries, 0, Outset(base));
  }

  // ----- an added object and its alias

  // What an Add creates is in the plan under its alias exactly when no later entry renames an object onto
  // its Ref. Otherwise that object is there instead, without an error.
  lemma AddedStands(c: Codec, base: Objects, entries: seq<Entry>, p: Progress, i: nat)
    requires Accounted(c, base, entries, |entries|, p) && i < |entries| && entries[i].operation == Add
    ensures AddedValue(c, entries[i]).Some? && entries[i].newTarget in p.aliases && p.aliases[entries[i].newTarget] in p.objects
    ensures var r := p.aliases[entries[i].newTarget];
            && r == RefOf(AddedValue(c, entries[i]).value)
            && (p.objects[r] == Added(AddedValue(c, entries[i]).value) <==> !exists j :: i < j < |entries| && RenamesOnto(c, entries[j], r))
            && (p.objects[r].baseRef.None? <==> !exists j :: i < j < |entries| && RenamesOnto(c, entries[j], r))
  {
    AtAdd(c, base, entries, |entries|, p, i);
    var r := RefOf(AddedValue(c, entries[i]).value);
    if exists j :: i < j < |entries| && RenamesOnto(c, entries[j], r) {
      var j :| i < j < |entries| && RenamesOnto(c, entries[j], r);
      assert Overtaken(c, entries, i, |entries|, r);
    }
  }

  // ----- index declarations an entry changes

  function DeclaredIn(value: Value, name: string): Option<IE.Declaration> {
    if value.DomainValue? then None
    else
      match IE.Last(IE.Spelled(value.definition), name)
      case None => None
      case Some(e) => Some(IE.DeclarationOf(e))
  }

  function DeclaredAs(m: map<string, IE.Declaration>, name: string): Option<IE.Declaration> {
    if name in m then Some(m[name]) else None
  }

  // recordIndexDeltas, for one name.
  function DeltaBetween(owner: Ref, before: Option<IE.Declaration>, after: Option<IE.Declaration>): seq<IP.Delta> {
    if before == after then []
    else if after.None? then [IP.Remove(owner)]
    else [IP.Desire(owner, after.value)]
  }

  // What an entry replaces by what, if it leaves an object behind.
  datatype ObjectChange = ObjectChange(owner: Ref, before: Option<Value>, after: Value)

  ghost function ChangeOf(c: Codec, base: Objects, e: Entry): Option<ObjectChange> {
    match e.operation
    case Add => if AddedValue(c, e).None? then None else Some(ObjectChange(RefOf(AddedValue(c, e).value), None, AddedValue(c, e).value))
    case Delete => None
    case _ =>
      match c.parseRef(e.oldTarget)
      case None => None
      case Some(b) =>
        if b !in base || EditedValue(c, base, e, b).None? then None
        else Some(ObjectChange(RefOf(EditedValue(c, base, e, b).value), Some(base[b]), EditedValue(c, base, e, b).value))
  }

  ghost function ChangesMade(c: Codec, base: Objects, entries: seq<Entry>): (r: seq<Option<ObjectChange>>)
    ensures |r| == |entries|
  {
    if entries == [] then [] else ChangesMade(c, base, entries[..|entries| - 1]) + [ChangeOf(c, base, entries[|entries| - 1])]
  }

  lemma {:induction false} ChangeAt(c: Codec, base: Objects, entries: seq<Entry>, k: nat)
    requires k < |entries|
    ensures ChangesMade(c, base, entries)[k] == ChangeOf(c, base, entries[k])
  {
    if k < |entries| - 1 {
      ChangeAt(c, base, entries[..|entries| - 1], k);
    }
  }

  function EntryDelta(change: Option<ObjectChange>, name: string): seq<IP.Delta> {
    if change.None? then []
    else
      DeltaBetween(change.value.owner, if change.value.before.Some? then DeclaredIn(change.value.before.value, name) else None,
                   DeclaredIn(change.value.after, name))
  }

  // The changes of one index that the first k entries ask for, in their order.
  function DeltasOf(changes: seq<Option<ObjectChange>>, k: nat, name: string): seq<IP.Delta>
    requires k <= |changes|
  {
    if k == 0 then [] else DeltasOf(changes, k - 1, name) + EntryDelta(changes[k - 1], name)
  }

  ghost predicate Recorded(changes: seq<Option<ObjectChange>>, k: nat, deltas: IP.Deltas)
    requires k <= |changes|
  {
    forall name {:trigger IP.ChangesOf(deltas, name)} :: IP.ChangesOf(deltas, name) == DeltasOf(changes, k, name)
  }

  lemma EntryDeltaNamed(change: Option<ObjectChange>, name: string)
    ensures forall d :: d in EntryDelta(change, name) && d.Desire? ==> d.declaration.name == name
  {
  }

  lemma {:induction false} DeltasNamed(changes: seq<Option<ObjectChange>>, k: nat, name: string)
    requires k <= |changes|
    ensures forall d :: d in DeltasOf(changes, k, name) && d.Desire? ==> d.declaration.name == name
  {
    if k > 0 {
      DeltasNamed(changes, k - 1, name);
      EntryDeltaNamed(changes[k - 1], name);
    }
  }

  // ----- what the planner keeps

  datatype Duty = Plans | Uses | Notes

  ghost predicate Does(duty: Duty, c: Codec, base: Objects, entries: seq<Entry>, k: nat, p: Progress, used: set<Ref>, deltas: IP.Deltas) {
    k <= |entries| &&
    match duty
    case Plans => Accounted(c, base, entries, k, p) && SoundCodec(c)
    case Uses => Used(c, entries, k, used)
    case Notes => Recorded(ChangesMade(c, base, entries), k, deltas)
  }

  ghost predicate Keeps(c: Codec, base: Objects, entries: seq<Entry>, k: nat, p: Progress, used: set<Ref>, deltas: IP.Deltas) {
    forall duty: Duty {:trigger Does(duty, c, base, entries, k, p, used, deltas)} :: Does(duty, c, base, entries, k, p, used, deltas)
  }

  lemma KeepsPlan(c: Codec, base: Objects, entries: seq<Entry>, k: nat, p: Progress, used: set<Ref>, deltas: IP.Deltas)
    requires Keeps(c, base, entries, k, p, used, deltas)
    ensures k <= |entries| && Accounted(c, base, entries, k, p) && SoundCodec(c)
  {
    assert Does(Plans, c, base, entries, k, p, used, deltas);
  }

  lemma KeepsUsed(c: Codec, base: Objects, entries: seq<Entry>, k: nat, p: Progress, used: set<Ref>, deltas: IP.Deltas, b: Ref)
    requires Keeps(c, base, entries, k, p, used, deltas)
    ensures k <= |entries| && (b in used <==> Handler(c, entries, k, b).Some?)
  {
    assert Does(Uses, c, base, entries, k, p, used, deltas);
  }

  lemma KeepsNotes(c: Codec, base: Objects, entries: seq<Entry>, k: nat, p: Progress, used: set<Ref>, deltas: IP.Deltas)
    requires Keeps(c, base, entries, k, p, used, deltas)
    ensures k <= |entries| && Recorded(ChangesMade(c, base, entries), k, deltas)
  {
    assert Does(Notes, c, base, entries, k, p, used, deltas);
  }

  // The index changes an entry records.
  ghost predicate Records(before: IP.Deltas, after: IP.Deltas, change: Option<ObjectChange>) {
    forall name {:trigger IP.ChangesOf(after, name)} :: IP.ChangesOf(after, name) == IP.ChangesOf(before, name) + EntryDelta(change, name)
  }

  lemma RecordedMore(changes: seq<Option<ObjectChange>>, k: nat, n: nat, before: IP.Deltas, after: IP.Deltas)
    requires k < |changes| && n == k + 1 && Recorded(changes, k, before) && Records(before, after, changes[k])
    ensures Recorded(changes, n, after)
  {
    forall name ensures IP.ChangesOf(after, name) == DeltasOf(changes, n, name) {
      assert IP.ChangesOf(before, name) == DeltasOf(changes, k, name);
    }
  }

  lemma AddChange(c: Codec, base: Objects, entries: seq<Entry>, k: nat, value: Value)
    requires k < |entries| && entries[k].operation == Add && AddedValue(c, entries[k]) == Some(value)
    ensures ChangesMade(c, base, entries)[k] == Some(ObjectChange(RefOf(value), None, value))
  {
    ChangeAt(c, base, entries, k);
  }

  lemma DeleteChange(c: Codec, base: Objects, entries: seq<Entry>, k: nat)
    requires k < |entries| && entries[k].operation == Delete
    ensures ChangesMade(c, base, entries)[k] == None
  {
    ChangeAt(c, base, entries, k);
  }

  lemma EditChange(c: Codec, base: Objects, entries: seq<Entry>, k: nat, b: Ref, value: Value)
    requires FirstNamed(c, base, entries, k, b) && (entries[k].operation == Update || entries[k].operation == Rename)
    requires EditedValue(c, base, entries[k], b) == Some(value)
    ensures ChangesMade(c, base, entries)[k] == Some(ObjectChange(RefOf(value), Some(base[b]), value))
  {
    ChangeAt(c, base, entries, k);
  }

  lemma StartKept(c: Codec, base: Objects, entries: seq<Entry>)
    requires WellNamed(base) && SoundCodec(c)
    ensures Keeps(c, base, entries, 0, Outset(base), {}, map[])
  {
    StartAccounted(c, base, entries);
    forall duty: Duty ensures Does(duty, c, base, entries, 0, Outset(base), {}, map[]) {
    }
  }

  lemma UsesNext(c: Codec, base: Objects, entries: seq<Entry>, k: nat, p: Progress, used: set<Ref>, deltas: IP.Deltas,
                 q: Progress, more: set<Ref>, after: IP.Deltas)
    requires Keeps(c, base, entries, k, p, used, deltas) && k < |entries|
    requires forall b :: Touches(c, entries[k], b) <==> b in more
    ensures Does(Uses, c, base, entries, k + 1, q, used + more, after)
  {
    assert Does(Uses, c, base, entries, k, p, used, deltas);
    UsedMore(c, entries, k, k + 1, used, more);
  }

  lemma NotesNext(c: Codec, base: Objects, entries: seq<Entry>, k: nat, p: Progress, used: set<Ref>, deltas: IP.Deltas,
                  q: Progress, more: set<Ref>, after: IP.Deltas)
    requires Keeps(c, base, entries, k, p, used, deltas) && k < |entries|
    requires Records(deltas, after, ChangesMade(c, base, entries)[k])
    ensures Does(Notes, c, base, entries, k + 1, q, used + more, after)
  {
    assert Does(Notes, c, base, entries, k, p, used, deltas);
    RecordedMore(ChangesMade(c, base, entries), k, k + 1, deltas, after);
  }

  // The next plan with what else goes with it.
  lemma KeepsNext(c: Codec, base: Objects, entries: seq<Entry>, k: nat, p: Progress, used: set<Ref>, deltas: IP.Deltas,
                  q: Progress, more: set<Ref>, after: IP.Deltas)
    requires Keeps(c, base, entries, k, p, used, deltas) && k < |entries| && Accounted(c, base, entries, k + 1, q)
    requires forall b :: Touches(c, entries[k], b) <==> b in more
    requires Records(deltas, after, ChangesMade(c, base, entries)[k])
    ensures Keeps(c, base, entries, k + 1, q, used + more, after)
  {
    KeepsPlan(c, base, entries, k, p, used, deltas);
    var n, all := k + 1, used + more;
    forall duty: Duty ensures Does(duty, c, base, entries, n, q, all, after) {
      match duty {
        case Plans =>
        case Uses => UsesNext(c, base, entries, k, p, used, deltas, q, more, after);
        case Notes => NotesNext(c, base, entries, k, p, used, deltas, q, more, after);
      }
    }
  }

  lemma AddKeepsAll(c: Codec, base: Objects, entries: seq<Entry>, k: nat, p: Progress, used: set<Ref>, deltas: IP.Deltas, value: Value, after: IP.Deltas)
    requires Keeps(c, base, entries, k, p, used, deltas) && k < |entries| && entries[k].operation == Add && !AddRefused(c, p, entries[k])
    requires AddedValue(c, entries[k]) == Some(value) && Records(deltas, after, Some(ObjectChange(RefOf(value), None, value)))
    ensures Keeps(c, base, entries, k + 1, AddStep(p, entries[k], value), used, after)
  {
    KeepsPlan(c, base, entries, k, p, used, deltas);
    AddKeeps(c, base, entries, k, p, value);
    AddChange(c, base, entries, k, value);
    KeepsNext(c, base, entries, k, p, used, deltas, AddStep(p, entries[k], value), {}, after);
    assert used + {} == used;
  }

  lemma DeleteKeepsAll(c: Codec, base: Objects, entries: seq<Entry>, k: nat, p: Progress, used: set<Ref>, deltas: IP.Deltas, b: Ref)
    requires Keeps(c, base, entries, k, p, used, deltas) && FirstNamed(c, base, entries, k, b) && entries[k].operation == Delete
    requires EntryBody(c, base, entries[k], b) == Some("")
    ensures Keeps(c, base, entries, k + 1, DeleteStep(p, b), used + {b}, deltas)
  {
    KeepsPlan(c, base, entries, k, p, used, deltas);
    DeleteKeeps(c, base, entries, k, p, b);
    DeleteChange(c, base, entries, k);
    NothingRecorded(deltas);
    KeepsNext(c, base, entries, k, p, used, deltas, DeleteStep(p, b), {b}, deltas);
  }

  lemma NothingRecorded(deltas: IP.Deltas)
    ensures Records(deltas, deltas, None)
  {
    forall name ensures IP.ChangesOf(deltas, name) == IP.ChangesOf(deltas, name) + EntryDelta(None, name) {
    }
  }

  lemma EditKeepsAll(c: Codec, base: Objects, entries: seq<Entry>, k: nat, p: Progress, used: set<Ref>, deltas: IP.Deltas, b: Ref, value: Value, after: IP.Deltas)
    requires Keeps(c, base, entries, k, p, used, deltas) && FirstNamed(c, base, entries, k, b)
    requires (entries[k].operation == Update || entries[k].operation == Rename) && !EditRefused(c, base, p, entries[k], b)
    requires EditedValue(c, base, entries[k], b) == Some(value) && Records(deltas, after, Some(ObjectChange(RefOf(value), Some(base[b]), value)))
    ensures Keeps(c, base, entries, k + 1, EditStep(p, base, entries[k], b, value), used + {b}, after)
  {
    KeepsPlan(c, base, entries, k, p, used, deltas);
    EditKeeps(c, base, entries, k, p, b, value);
    EditChange(c, base, entries, k, b, value);
    KeepsNext(c, base, entries, k, p, used, deltas, EditStep(p, base, entries[k], b, value), {b}, after);
  }

  // ----- applyEntry

  class Planner {
    const base: Objects
    const codec: Codec
    var objects: PlannedObjects
    var aliases: map<string, Ref>
    var transitions: map<Ref, Ref>
    var indexDeltas: IP.Deltas
    var usedBaseTargets: set<Ref>
    var usedAliases: set<string>
    ghost var entries: seq<Entry>

    ghost function State(): Progress
      reads this
    {
      Progress(objects, aliases, transitions)
    }

    ghost predicate Valid(k: nat)
      reads this
    {
      Keeps(codec, base, entries, k, State(), usedBaseTargets, indexDeltas) && usedAliases == aliases.Keys
    }

    constructor (base: Objects, codec: Codec, ghost entries: seq<Entry>)
      requires WellNamed(base) && SoundCodec(codec)
      ensures Valid(0) && this.base == base && this.codec == codec && this.entries == entries
    {
      this.base, this.codec, this.entries := base, codec, entries;
      objects := map r | r in base :: Untouched(r, base[r]);
      aliases, transitions, indexDeltas, usedBaseTargets, usedAliases := map[], map[], map[], {}, {};
      StartKept(codec, base, entries);
    }

    // objectIndexDeclarations, for every kind of object.
    static method Declarations(value: Value) returns (m: map<string, IE.Declaration>)
      ensures forall name {:trigger DeclaredIn(value, name)} :: DeclaredIn(value, name) == DeclaredAs(m, name)
    {
      if value.DomainValue? {
        return map[];
      }
      m := IE.ObjectIndexDeclarations(value.definition);
      forall name ensures DeclaredIn(value, name) == DeclaredAs(m, name) {
        assert name in m <==> IE.Last(IE.Spelled(value.definition), name).Some?;
      }
    }

    method RecordIndexDeltas(owner: Ref, before: map<string, IE.Declaration>, after: map<string, IE.Declaration>)
      modifies this`indexDeltas
      ensures forall name {:trigger IP.ChangesOf(indexDeltas, name)} ::
                IP.ChangesOf(indexDeltas, name) == IP.ChangesOf(old(indexDeltas), name) + DeltaBetween(owner, DeclaredAs(before, name), DeclaredAs(after, name))
    {
      var names := before.Keys + after.Keys;
      while names != {}
        invariant names <= before.Keys + after.Keys
        invariant forall name {:trigger IP.ChangesOf(indexDeltas, name)} :: name in names ==> IP.ChangesOf(indexDeltas, name) == IP.ChangesOf(old(indexDeltas), name)
        invariant forall name {:trigger IP.ChangesOf(indexDeltas, name)} :: name !in names ==>
          IP.ChangesOf(indexDeltas, name) == IP.ChangesOf(old(indexDeltas), name) + DeltaBetween(owner, DeclaredAs(before, name), DeclaredAs(after, name))
        decreases |names|
      {
        var name :| name in names;
        names := names - {name};
        ghost var was := indexDeltas;
        var earlier := IP.ChangesOf(indexDeltas, name);
        if name in before && name in after && before[name] == after[name] {
          assert earlier == earlier + [];
        } else if name !in after {
          indexDeltas := indexDeltas[name := earlier + [IP.Remove(owner)]];
        } else {
          indexDeltas := indexDeltas[name := earlier + [IP.Desire(owner, after[name])]];
        }
        assert forall other {:trigger IP.ChangesOf(indexDeltas, other)} :: other != name ==> IP.ChangesOf(indexDeltas, other) == IP.ChangesOf(was, other);
      }
    }

    // What the source does with declarations on both sides of an entry.
    method RecordChange(owner: Ref, before: Option<Value>, after: Value)
      modifies this`indexDeltas
      ensures Records(old(indexDeltas), indexDeltas, Some(ObjectChange(owner, before, after)))
    {
      var m: map<string, IE.Declaration> := map[];
      if before.Some? {
        m := Declarations(before.value);
      }
      var n := Declarations(after);
      RecordIndexDeltas(owner, m, n);
      forall name
        ensures IP.ChangesOf(indexDeltas, name) == IP.ChangesOf(old(indexDeltas), name) + EntryDelta(Some(ObjectChange(owner, before, after)), name)
      {
        assert DeclaredIn(after, name) == DeclaredAs(n, name);
        if before.Some? {
          assert DeclaredIn(before.value, name) == DeclaredAs(m, name);
        }
      }
    }

    // The object an Add creates.
    method NewValue(entry: Entry) returns (r: Result<Value>)
      requires WellFormedEntry(entry)
      ensures r.Success? <==> AddedValue(codec, entry).Some?
      ensures r.Success? ==> AddedValue(codec, entry) == Some(r.value)
    {
      var kind := codec.parseNew(entry.newTarget);
      if kind.None? {
        return Failure(InvalidArgument);
      }
      AcceptedHunksApply(entry);
      var body := ApplyExactHunks("", entry.hunks);
      if body.Failure? {
        return Failure(body.code);
      }
      GivesPatched(entry.hunks, "", body.value);
      r := codec.parse(kind.value, body.value);
    }

    method ApplyAdd(entry: Entry, ghost k: nat) returns (r: Result<()>)
      requires Valid(k) && k < |entries| && entries[k] == entry && entry.operation == Add && WellFormedEntry(entry)
      modifies this`objects, this`aliases, this`usedAliases, this`indexDeltas
      ensures r.Success? <==> !AddRefused(codec, old(State()), entry)
      ensures r.Success? ==> Valid(k + 1)
    {
      if entry.newTarget in usedAliases {
        return Failure(InvalidArgument);
      }
      usedAliases := usedAliases + {entry.newTarget};
      var value := NewValue(entry);
      if value.Failure? {
        return Failure(value.code);
      }
      var ref := RefOf(value.value);
      if ref in objects {
        return Failure(ObjectConflict);
      }
      RecordChange(ref, None, value.value);
      AddKeepsAll(codec, base, entries, k, State(), usedBaseTargets, old(indexDeltas), value.value, indexDeltas);
      objects := objects[ref := Added(value.value)];
      aliases := aliases[entry.newTarget := ref];
      return Success(());
    }

    // The base body with the entry's hunks applied.
    method PatchedBody(entry: Entry, ref: Ref) returns (r: Result<string>)
      requires WellFormedEntry(entry) && ref in base
      ensures r.Success? <==> EntryBody(codec, base, entry, ref).Some?
      ensures r.Success? ==> EntryBody(codec, base, entry, ref) == Some(r.value)
    {
      var text := codec.render(base[ref]);
      if |entry.hunks| == 0 {
        return Success(text);
      }
      AcceptedHunksApply(entry);
      r := ApplyExactHunks(text, entry.hunks);
      if r.Success? {
        GivesPatched(entry.hunks, text, r.value);
      }
    }

    method ApplyDelete(entry: Entry, oldRef: Ref, ghost k: nat) returns (r: Result<()>)
      requires Valid(k) && k < |entries| && entries[k] == entry && entry.operation == Delete && WellFormedEntry(entry)
      requires FirstNamed(codec, base, entries, k, oldRef)
      modifies this`objects, this`usedBaseTargets
      ensures r.Success? <==> !EditRefused(codec, base, old(State()), entry, oldRef)
      ensures r.Success? ==> Valid(k + 1)
    {
      var body := PatchedBody(entry, oldRef);
      if body.Failure? {
        return Failure(body.code);
      }
      if body.value != "" {
        return Failure(PatchBaseMismatch);
      }
      DeleteKeepsAll(codec, base, entries, k, State(), usedBaseTargets, indexDeltas, oldRef);
      usedBaseTargets := usedBaseTargets + {oldRef};
      objects := objects - {oldRef};
      return Success(());
    }

    // The Ref the object is to have: its own, or a Rename's free target of the same kind.
    method TargetRef(entry: Entry, oldRef: Ref) returns (r: Result<Ref>)
      requires entry.operation == Update || entry.operation == Rename
      ensures entry.operation == Update ==> r == Success(oldRef)
      ensures entry.operation == Rename ==>
                (r.Success? <==>
                  var target := codec.parseRef(entry.newTarget);
                  target.Some? && target.value.kind == oldRef.kind && !Occupied(State(), target.value, oldRef))
      ensures entry.operation == Rename && r.Success? ==> codec.parseRef(entry.newTarget) == Some(r.value)
    {
      if entry.operation == Update {
        return Success(oldRef);
      }
      var target := codec.parseRef(entry.newTarget);
      if target.None? {
        return Failure(InvalidArgument);
      }
      if target.value.kind != oldRef.kind {
        return Failure(UnsupportedOperation);
      }
      if target.value in objects && objects[target.value].baseRef.Some? && objects[target.value].baseRef.value != oldRef {
        return Failure(ObjectConflict);
      }
      return Success(target.value);
    }

    // The patched value, under the name it is to have.
    method TargetValue(entry: Entry, oldRef: Ref, newRef: Ref, body: string) returns (r: Result<Value>)
      requires newRef.kind == oldRef.kind
      requires (entry.operation == Update && newRef == oldRef) || (entry.operation == Rename && codec.parseRef(entry.newTarget) == Some(newRef))
      ensures r.Success? <==> codec.parse(oldRef.kind, body).Success? && NamedAs(codec, entry, oldRef, codec.parse(oldRef.kind, body).value).Some?
      ensures r.Success? ==> NamedAs(codec, entry, oldRef, codec.parse(oldRef.kind, body).value) == Some(r.value)
    {
      var parsed := codec.parse(oldRef.kind, body);
      if parsed.Failure? {
        return Failure(parsed.code);
      }
      var value := parsed.value;
      if entry.operation == Rename {
        if RefOf(value) == oldRef {
          value := WithName(value, newRef.name);
        }
        if RefOf(value) != newRef {
          return Failure(ObjectConflict);
        }
      } else if RefOf(value) != oldRef {
        return Failure(ObjectConflict);
      }
      return Success(value);
    }

    // What an Update or Rename makes of its object.
    method MovedValue(entry: Entry, oldRef: Ref) returns (r: Result<Value>)
      requires (entry.operation == Update || entry.operation == Rename) && WellFormedEntry(entry) && oldRef in base
      ensures r.Success? <==> !EditRefused(codec, base, State(), entry, oldRef)
      ensures r.Success? ==> EditedValue(codec, base, entry, oldRef) == Some(r.value)
    {
      var body := PatchedBody(entry, oldRef);
      if body.Failure? {
        return Failure(body.code);
      }
      var newRef := TargetRef(entry, oldRef);
      if newRef.Failure? {
        return Failure(newRef.code);
      }
      r := TargetValue(entry, oldRef, newRef.value, body.value);
    }

    method ApplyMove(entry: Entry, oldRef: Ref, ghost k: nat) returns (r: Result<()>)
      requires Valid(k) && k < |entries| && entries[k] == entry && WellFormedEntry(entry)
      requires entry.operation == Update || entry.operation == Rename
      requires FirstNamed(codec, base, entries, k, oldRef)
      modifies this`objects, this`usedBaseTargets, this`transitions, this`indexDeltas
      ensures r.Success? <==> !EditRefused(codec, base, old(State()), entry, oldRef)
      ensures r.Success? ==> Valid(k + 1)
    {
      var value := MovedValue(entry, oldRef);
      if value.Failure? {
        return Failure(value.code);
      }
      var newRef := RefOf(value.value);
      RecordChange(newRef, Some(base[oldRef]), value.value);
      KeepsPlan(codec, base, entries, k, State(), usedBaseTargets, old(indexDeltas));
      StillThere(codec, base, entries, k, State(), oldRef);
      EditKeepsAll(codec, base, entries, k, State(), usedBaseTargets, old(indexDeltas), oldRef, value.value, indexDeltas);
      usedBaseTargets := usedBaseTargets + {oldRef};
      objects := (objects - {oldRef})[newRef := objects[oldRef].(value := value.value, explicitlyEdited := true)];
      if entry.operation == Rename {
        transitions := transitions[oldRef := newRef];
      }
      return Success(());
    }

    method ApplyEntry(entry: Entry, ghost k: nat) returns (r: Result<()>)
      requires Valid(k) && k < |entries| && entries[k] == entry && WellFormedEntry(entry)
      requires AcceptedTo(codec, base, entries, k)
      modifies this`objects, this`aliases, this`transitions, this`indexDeltas, this`usedBaseTargets, this`usedAliases
      ensures r.Success? <==> !Refused(codec, base, entries, k, old(State()))
      ensures r.Success? ==> Valid(k + 1) && AcceptedTo(codec, base, entries, k + 1)
      ensures r.Failure? ==> !Accepted(codec, base, entries)
    {
      KeepsPlan(codec, base, entries, k, State(), usedBaseTargets, indexDeltas);
      AcceptedMore(codec, base, entries, k, State());
      if entry.operation == Add {
        r := ApplyAdd(entry, k);
        return;
      }
      var oldRef := codec.parseRef(entry.oldTarget);
      if oldRef.None? {
        return Failure(InvalidArgument);
      }
      KeepsUsed(codec, base, entries, k, State(), usedBaseTargets, indexDeltas, oldRef.value);
      if oldRef.value in usedBaseTargets {
        return Failure(InvalidArgument);
      }
      if oldRef.value !in base {
        return Failure(ObjectNotFound);
      }
      if entry.operation == Delete {
        r := ApplyDelete(entry, oldRef.value, k);
      } else {
        r := ApplyMove(entry, oldRef.value, k);
      }
    }

    method ApplyAll(list: seq<Entry>) returns (r: Result<()>)
      requires Valid(0) && entries == list && forall i {:trigger list[i]} :: 0 <= i < |list| ==> WellFormedEntry(list[i])
      modifies this
      ensures entries == list
      ensures r.Success? <==> Accepted(codec, base, list)
      ensures r.Success? ==> Valid(|list|)
    {
      var k := 0;
      while k < |list|
        invariant 0 <= k <= |list| && entries == list && Valid(k) && AcceptedTo(codec, base, list, k)
      {
        r := ApplyEntry(list[k], k);
        if r.Failure? {
          return;
        }
        k := k + 1;
      }
      return Success(());
    }
  }

  // All entries in turn: accepted exactly when none is refused, and then the plan is what they say.
  method ApplyEntries(base: Objects, codec: Codec, entries: seq<Entry>) returns (r: Result<(PlannedObjects, map<string, Ref>, map<Ref, Ref>, IP.Deltas)>)
    requires WellNamed(base) && SoundCodec(codec)
    requires forall i {:trigger entries[i]} :: 0 <= i < |entries| ==> WellFormedEntry(entries[i])
    ensures r.Success? <==> Accepted(codec, base, entries)
    ensures r.Success? ==>
              && Accounted(codec, base, entries, |entries|, Progress(r.value.0, r.value.1, r.value.2))
              && Recorded(ChangesMade(codec, base, entries), |entries|, r.value.3)
  {
    var planner := new Planner(base, codec, entries);
    var applied := planner.ApplyAll(entries);
    if applied.Failure? {
      return Failure(applied.code);
    }
    KeepsPlan(codec, base, entries, |entries|, planner.State(), planner.usedBaseTargets, planner.indexDeltas);
    KeepsNotes(codec, base, entries, |entries|, planner.State(), planner.usedBaseTargets, planner.indexDeltas);
    return Success((planner.objects, planner.aliases, planner.transitions, planner.indexDeltas));
  }
}

// Aliases and renames inside the planned bodies.
module ReferencePlan {
  import opened Outcomes
  import opened Sorting
  import opened Model
  import opened BindingGraph

  type Transitions = map<Ref, Ref>

  // ----- one reference

  // The reference with its rename carried out, once.
  function Renamed(transitions: Transitions, m: Reference): Reference {
    if m.To? && m.ref in transitions then To(transitions[m.ref]) else m
  }

  // One round of "for oldRef, newRef := range renameMap".
  function Round(transitions: Transitions, oldRef: Ref, m: Reference): Reference {
    if oldRef in transitions && m == To(oldRef) then To(transitions[oldRef]) else m
  }

  // The whole loop, in the order the map is walked.
  function Walk(transitions: Transitions, order: seq<Ref>, m: Reference): Reference {
    if order == [] then m else Walk(transitions, order[1..], Round(transitions, order[0], m))
  }

  // order names each rename source once.
  ghost predicate Lists(order: seq<Ref>, transitions: Transitions) {
    Distinct(order) && forall r :: r in order <==> r in transitions
  }

  // No rename leads to the source of another.
  ghost predicate Unchained(transitions: Transitions) {
    forall a :: a in transitions && transitions[a] in transitions ==> transitions[transitions[a]] == transitions[a]
  }

  // What the entries leave behind: no two objects are renamed to one Ref; and no chains.
  ghost predicate Clean(transitions: Transitions) {
    && Unchained(transitions)
    && forall a, b :: a in transitions && b in transitions && transitions[a] == transitions[b] ==> a == b
  }

  lemma {:induction false} WalkStays(transitions: Transitions, order: seq<Ref>, m: Reference)
    requires forall r :: r in order && m == To(r) && r in transitions ==> transitions[r] == r
    ensures Walk(transitions, order, m) == m
  {
    if order != [] {
      assert order[0] in order;
      WalkStays(transitions, order[1..], m);
    }
  }

  lemma {:induction false} WalkOnce(transitions: Transitions, order: seq<Ref>, a: Ref)
    requires Distinct(order) && a in order && a in transitions
    requires transitions[a] in transitions ==> transitions[transitions[a]] == transitions[a]
    ensures Walk(transitions, order, To(a)) == To(transitions[a])
  {
    if order[0] == a {
      WalkStays(transitions, order[1..], To(transitions[a]));
    } else {
      WalkOnce(transitions, order[1..], a);
    }
  }

  lemma {:induction false} WalkConcat(transitions: Transitions, a: seq<Ref>, b: seq<Ref>, m: Reference)
    ensures Walk(transitions, a + b, m) == Walk(transitions, b, Walk(transitions, a, m))
  {
    if a == [] {
      assert a + b == b;
    } else {
      assert (a + b)[0] == a[0] && (a + b)[1..] == a[1..] + b;
      WalkConcat(transitions, a[1..], b, Round(transitions, a[0], m));
    }
  }

  // Every order gives every reference its rename once.
  ghost predicate OrderFree(transitions: Transitions) {
    forall order, m {:trigger Walk(transitions, order, m)} :: Lists(order, transitions) ==> Walk(transitions, order, m) == Renamed(transitions, m)
  }

  lemma ChainShows(transitions: Transitions, a: Ref) returns (order: seq<Ref>)
    requires a in transitions && transitions[a] in transitions && transitions[transitions[a]] != transitions[a]
    ensures Lists(order, transitions) && Walk(transitions, order, To(a)) != Renamed(transitions, To(a))
  {
    var b := transitions[a];
    var c := transitions[b];
    var others := ListSet(transitions.Keys - {a, b});
    order := others + [a, b];
    forall i, j | 0 <= i < j < |order| ensures order[i] != order[j] {
      if j >= |others| && i < |others| {
        assert order[i] in others;
      }
    }
    forall r ensures r in order <==> r in transitions {
      if r == a || r == b {
        assert order[|others|] == a && order[|others| + 1] == b;
      }
      if r in others {
        var i :| 0 <= i < |others| && others[i] == r;
        assert order[i] == r;
      }
    }
    WalkConcat(transitions, others, [a, b], To(a));
    WalkStays(transitions, others, To(a));
    assert [a, b][1..] == [b] && [b][1..] == [];
    assert Walk(transitions, [a, b], To(a)) == Walk(transitions, [b], To(b)) == Walk(transitions, [], To(c)) == To(c);
  }

  lemma {:induction false} ListSet(s: set<Ref>) returns (order: seq<Ref>)
    ensures Distinct(order) && forall r :: r in order <==> r in s
  {
    order := [];
    if s != {} {
      var r :| r in s;
      var rest := ListSet(s - {r});
      order := [r] + rest;
    }
  }

  // Exactly when no rename leads to the source of another is the order of the map irrelevant.
  lemma OrderIrrelevant(transitions: Transitions)
    ensures Unchained(transitions) <==> OrderFree(transitions)
  {
    if Unchained(transitions) {
      forall order, m | Lists(order, transitions) ensures Walk(transitions, order, m) == Renamed(transitions, m) {
        if m.To? && m.ref in transitions {
          WalkOnce(transitions, order, m.ref);
        } else {
          WalkStays(transitions, order, m);
        }
      }
    } else {
      var a :| a in transitions && transitions[a] in transitions && transitions[transitions[a]] != transitions[a];
      var order := ChainShows(transitions, a);
    }
  }

  // ----- what a body may name

  // resolveAlias: a new object's alias, a base object, or the target of a rename.
  function Resolve(aliases: map<string, Ref>, known: set<Ref>, m: Reference): Result<Reference> {
    match m
    case New(alias) => if alias in aliases then Success(To(aliases[alias])) else Failure(InvalidArgument)
    case To(ref) => if ref in known then Success(m) else Failure(ObjectNotFound)
  }

  method ResolveAll(aliases: map<string, Ref>, known: set<Ref>, includes: seq<Reference>) returns (r: Result<seq<Reference>>)
    ensures r.Success? <==> forall i {:trigger includes[i]} :: 0 <= i < |includes| ==> Resolve(aliases, known, includes[i]).Success?
    ensures r.Success? ==>
              |r.value| == |includes| && forall i {:trigger r.value[i]} :: 0 <= i < |includes| ==> Resolve(aliases, known, includes[i]) == Success(r.value[i])
  {
    var resolved: seq<Reference> := [];
    var k := 0;
    while k < |includes|
      invariant 0 <= k <= |includes| && |resolved| == k
      invariant forall i {:trigger resolved[i]} :: 0 <= i < k ==> Resolve(aliases, known, includes[i]) == Success(resolved[i])
    {
      var one := Resolve(aliases, known, includes[k]);
      if one.Failure? {
        return Failure(one.code);
      }
      resolved := resolved + [one.value];
      k := k + 1;
    }
    forall i | 0 <= i < |includes| ensures Resolve(aliases, known, includes[i]).Success? {
      assert Resolve(aliases, known, includes[i]) == Success(resolved[i]);
    }
    return Success(resolved);
  }

  // ----- Domain members

  // An explicit edit dropped a member whose rename must be carried along.
  ghost predicate Dropped(transitions: Transitions, baseIncludes: seq<Reference>, resolved: seq<Reference>, oldRef: Ref) {
    oldRef in transitions && To(oldRef) in baseIncludes && To(oldRef) !in resolved && To(transitions[oldRef]) !in resolved
  }

  function WalkAll(transitions: Transitions, order: seq<Ref>, includes: seq<Reference>): (r: seq<Reference>)
    ensures |r| == |includes|
  {
    seq(|includes|, i requires 0 <= i < |includes| => Walk(transitions, order, includes[i]))
  }

  lemma {:induction false} WalkLast(transitions: Transitions, order: seq<Ref>, r: Ref, m: Reference)
    ensures Walk(transitions, order + [r], m) == Round(transitions, r, Walk(transitions, order, m))
  {
    WalkConcat(transitions, order, [r], m);
    assert [r][1..] == [];
  }

  // Before oldRef is walked, the walk has neither removed nor produced oldRef or its target.
  lemma ContainsAsResolved(transitions: Transitions, order: seq<Ref>, includes: seq<Reference>, oldRef: Ref)
    requires Clean(transitions) && Distinct(order) && (forall r :: r in order ==> r in transitions) && oldRef in transitions && oldRef !in order
    ensures To(oldRef) in WalkAll(transitions, order, includes) <==> To(oldRef) in includes
    ensures To(oldRef) !in includes ==> (To(transitions[oldRef]) in WalkAll(transitions, order, includes) <==> To(transitions[oldRef]) in includes)
  {
    var walked := WalkAll(transitions, order, includes);
    forall i | 0 <= i < |includes|
      ensures walked[i] == To(oldRef) <==> includes[i] == To(oldRef)
      ensures walked[i] == To(transitions[oldRef]) <==> includes[i] == To(transitions[oldRef])
    {
      WalkPrefix(transitions, order, includes[i]);
    }
    if To(oldRef) in includes {
      var i :| 0 <= i < |includes| && includes[i] == To(oldRef);
      assert walked[i] == To(oldRef);
    }
    if To(transitions[oldRef]) in includes {
      var i :| 0 <= i < |includes| && includes[i] == To(transitions[oldRef]);
      assert walked[i] == To(transitions[oldRef]);
    }
  }

  // Part of the loop renames the references whose source it has passed.
  lemma WalkPrefix(transitions: Transitions, order: seq<Ref>, m: Reference)
    requires Unchained(transitions) && Distinct(order) && forall r :: r in order ==> r in transitions
    ensures Walk(transitions, order, m) == if m.To? && m.ref in order then To(transitions[m.ref]) else m
  {
    if m.To? && m.ref in order {
      WalkOnce(transitions, order, m.ref);
    } else {
      WalkStays(transitions, order, m);
    }
  }

  // The loop over renameMap on one Domain, whatever order it takes.
  method RenameMembers(transitions: Transitions, baseIncludes: seq<Reference>, edited: bool, resolved: seq<Reference>)
      returns (r: Result<seq<Reference>>, ghost order: seq<Ref>)
    ensures r.Success? ==> Lists(order, transitions) && r.value == WalkAll(transitions, order, resolved)
    ensures r.Failure? ==> r.code == ObjectConflict && edited
    ensures Clean(transitions) ==>
              (r.Success? <==> !(edited && exists oldRef :: Dropped(transitions, baseIncludes, resolved, oldRef)))
  {
    var includes := resolved;
    order := [];
    var todo := transitions.Keys;
    assert includes == WalkAll(transitions, [], resolved);
    ghost var free := Clean(transitions);
    while todo != {}
      invariant todo <= transitions.Keys && Distinct(order)
      invariant forall q :: q in order <==> q in transitions && q !in todo
      invariant includes == WalkAll(transitions, order, resolved)
      invariant free && edited ==> forall q :: q in order ==> !Dropped(transitions, baseIncludes, resolved, q)
      decreases |todo|
    {
      var oldRef :| oldRef in todo;
      todo := todo - {oldRef};
      if free {
        ContainsAsResolved(transitions, order, resolved, oldRef);
      }
      if To(oldRef) in baseIncludes && To(oldRef) !in includes && To(transitions[oldRef]) !in includes && edited {
        assert free ==> Dropped(transitions, baseIncludes, resolved, oldRef);
        return Failure(ObjectConflict), order;
      }
      includes := seq(|includes|, i requires 0 <= i < |includes| => if includes[i] == To(oldRef) then To(transitions[oldRef]) else includes[i]);
      forall i | 0 <= i < |resolved| ensures Walk(transitions, order + [oldRef], resolved[i]) == includes[i] {
        WalkLast(transitions, order, oldRef, resolved[i]);
      }
      order := order + [oldRef];
    }
    return Success(includes), order;
  }

  // ----- Relationship endpoints

  // One round of applyEndpointTransitions.
  function EndpointRound(transitions: Transitions, base: Option<Reference>, explicit: bool, oldRef: Ref, current: Option<Reference>): Result<Option<Reference>> {
    if oldRef !in transitions then Success(current)
    else if base == Some(To(oldRef)) then
      match current
      case None => if explicit then Failure(ObjectConflict) else Success(None)
      case Some(m) =>
        if m == To(oldRef) then Success(Some(To(transitions[oldRef])))
        else if m == To(transitions[oldRef]) then Success(current)
        else if explicit then Failure(ObjectConflict) else Success(current)
    else if current == Some(To(oldRef)) then Success(Some(To(transitions[oldRef])))
    else Success(current)
  }

  // The edit points the endpoint away from a renamed Definition.
  predicate PointsAway(transitions: Transitions, base: Option<Reference>, current: Option<Reference>) {
    && base.Some? && base.value.To? && base.value.ref in transitions
    && current != base && current != Some(To(transitions[base.value.ref]))
  }

  function RenamedEnd(transitions: Transitions, current: Option<Reference>): Option<Reference> {
    if current.Some? then Some(Renamed(transitions, current.value)) else None
  }

  // The loop so far, without chains.
  ghost predicate EndSoFar(transitions: Transitions, base: Option<Reference>, start: Option<Reference>, explicit: bool,
                           seen: set<Ref>, current: Option<Reference>) {
    && seen <= transitions.Keys
    && current == (if start.Some? && start.value.To? && start.value.ref in seen then RenamedEnd(transitions, start) else start)
    && (explicit && base.Some? && base.value.To? && base.value.ref in seen ==> !PointsAway(transitions, base, start))
  }

  lemma EndStep(transitions: Transitions, base: Option<Reference>, start: Option<Reference>, explicit: bool,
                seen: set<Ref>, current: Option<Reference>, oldRef: Ref)
    requires Clean(transitions) && EndSoFar(transitions, base, start, explicit, seen, current) && oldRef in transitions && oldRef !in seen
    ensures var round := EndpointRound(transitions, base, explicit, oldRef, current);
            && (round.Success? ==> EndSoFar(transitions, base, start, explicit, seen + {oldRef}, round.value))
            && (round.Failure? ==> explicit && PointsAway(transitions, base, start))
  {
    var target := transitions[oldRef];
    if start.Some? && start.value.To? && start.value.ref in transitions {
      var x := start.value.ref;
      assert transitions[x] == target ==> x == oldRef;
      assert transitions[x] == oldRef ==> transitions[oldRef] == oldRef;
    }
  }

  // Without chains the endpoint is renamed once, unless an explicit edit points it elsewhere.
  method ApplyEndpointTransitions(transitions: Transitions, base: Option<Reference>, start: Option<Reference>, explicit: bool)
      returns (r: Result<Option<Reference>>)
    ensures Clean(transitions) ==> (r.Success? <==> !(explicit && PointsAway(transitions, base, start)))
    ensures Clean(transitions) && r.Success? ==> r.value == RenamedEnd(transitions, start)
    ensures r.Failure? ==> r.code == ObjectConflict
  {
    var current := start;
    ghost var seen: set<Ref> := {};
    var todo := transitions.Keys;
    while todo != {}
      invariant todo <= transitions.Keys && seen == transitions.Keys - todo
      invariant Clean(transitions) ==> EndSoFar(transitions, base, start, explicit, seen, current)
      decreases |todo|
    {
      var oldRef :| oldRef in todo;
      todo := todo - {oldRef};
      if Clean(transitions) {
        EndStep(transitions, base, start, explicit, seen, current, oldRef);
      }
      var round := EndpointRound(transitions, base, explicit, oldRef, current);
      if round.Failure? {
        return Failure(ObjectConflict);
      }
      current := round.value;
      seen := seen + {oldRef};
    }
    return Success(current);
  }
}

// The whole of planOntologyEntries but for constraints.
module PatchPlan {
  import opened Outcomes
  import opened Text
  import opened Sorting
  import opened Model
  import opened BindingGraph
  import opened CompilerFacts
  import opened GitPatch
  import opened EntryPlan
  import opened ReferencePlan
  import IE = IndexEntries
  import IR = IndexReading
  import IP = IndexPlan
  import IX = IndexRoundTrip

  // ----- Property continuity

  // Every listed Property has an entry; a named source exists in the base and is used once.
  ghost predicate Continuity(baseNames: set<string>, properties: seq<Property>, propertyBase: map<string, string>) {
    && (forall i {:trigger properties[i]} :: 0 <= i < |properties| ==>
         && properties[i].name in propertyBase
         && (propertyBase[properties[i].name] != "" ==> propertyBase[properties[i].name] in baseNames))
    && (forall a, b :: a in propertyBase && b in propertyBase && propertyBase[a] == propertyBase[b] != "" ==> a == b)
  }

  // A Property's base name: what it is renamed from, or its own name if the base has it.
  function SourceOf(baseNames: set<string>, p: Property): string {
    if p.renameFrom != "" then p.renameFrom else if p.name in baseNames then p.name else ""
  }

  ghost predicate ContinuitySoFar(baseNames: set<string>, properties: seq<Property>, k: nat, propertyBase: map<string, string>,
                                  consumed: map<string, string>) {
    && k <= |properties|
    && (forall i {:trigger properties[i]} :: 0 <= i < k ==> properties[i].name in propertyBase)
    && (forall name :: name in propertyBase && propertyBase[name] != "" ==>
         propertyBase[name] in baseNames && propertyBase[name] in consumed && consumed[propertyBase[name]] == name)
  }

  lemma ContinuityMore(baseNames: set<string>, properties: seq<Property>, k: nat, propertyBase: map<string, string>,
                       consumed: map<string, string>, source: string)
    requires k < |properties| && ContinuitySoFar(baseNames, properties, k, propertyBase, consumed)
    requires source != "" ==> source in baseNames && source !in consumed
    ensures ContinuitySoFar(baseNames, properties, k + 1, propertyBase[properties[k].name := source],
                            if source == "" then consumed else consumed[source := properties[k].name])
  {
  }

  // The Property names that the first k Properties say they are renamed from, and to what.
  ghost predicate RenamesIn(properties: seq<Property>, k: nat, renames: map<string, string>) {
    && k <= |properties|
    && (forall i {:trigger properties[i]} :: 0 <= i < k && properties[i].renameFrom != "" ==>
          properties[i].renameFrom in renames && renames[properties[i].renameFrom] == properties[i].name)
    && (forall source :: source in renames ==>
          exists i {:trigger properties[i]} :: 0 <= i < k && properties[i].renameFrom == source != "" && properties[i].name == renames[source])
  }

  // Each Property's entry is its own, where names are not repeated.
  ghost predicate Sources(baseNames: set<string>, properties: seq<Property>, propertyBase: map<string, string>) {
    DistinctProperties(properties) ==>
      forall i {:trigger properties[i]} :: 0 <= i < |properties| ==>
        properties[i].name in propertyBase && propertyBase[properties[i].name] == SourceOf(baseNames, properties[i])
  }

  // Every rename request names another Property, one of the base, and no base Property is asked for twice.
  predicate SourceAllowed(baseNames: set<string>, p: Property) {
    p.renameFrom != "" ==> p.renameFrom != p.name && p.renameFrom in baseNames
  }

  ghost predicate Consumable(baseNames: set<string>, properties: seq<Property>, k: nat)
    requires k <= |properties|
  {
    && (forall i {:trigger properties[i]} :: 0 <= i < k ==> SourceAllowed(baseNames, properties[i]))
    && (forall i, j {:trigger properties[i], properties[j]} :: 0 <= i < j < k && SourceOf(baseNames, properties[i]) != "" ==>
          SourceOf(baseNames, properties[i]) != SourceOf(baseNames, properties[j]))
  }

  // What the first k Properties have consumed.
  ghost predicate ConsumedSoFar(baseNames: set<string>, properties: seq<Property>, k: nat, consumed: map<string, string>)
    requires k <= |properties|
  {
    forall source {:trigger source in consumed} :: source in consumed <==>
      source != "" && exists i {:trigger properties[i]} :: 0 <= i < k && SourceOf(baseNames, properties[i]) == source
  }

  lemma ConsumedMore(baseNames: set<string>, properties: seq<Property>, k: nat, consumed: map<string, string>)
    requires k < |properties| && Consumable(baseNames, properties, k) && ConsumedSoFar(baseNames, properties, k, consumed)
    ensures var source := SourceOf(baseNames, properties[k]);
            && ConsumedSoFar(baseNames, properties, k + 1, if source == "" then consumed else consumed[source := properties[k].name])
            && (Consumable(baseNames, properties, k + 1) <==> SourceAllowed(baseNames, properties[k]) && !(source != "" && source in consumed))
  {
    var source := SourceOf(baseNames, properties[k]);
    var after := if source == "" then consumed else consumed[source := properties[k].name];
    forall other ensures other in after <==>
        other != "" && exists i {:trigger properties[i]} :: 0 <= i < k + 1 && SourceOf(baseNames, properties[i]) == other
    {
      if other in consumed {
        var i :| 0 <= i < k && SourceOf(baseNames, properties[i]) == other;
        assert i < k + 1;
      }
    }
    if source != "" && source in consumed {
      var i :| 0 <= i < k && SourceOf(baseNames, properties[i]) == source;
      assert i < k < k + 1;
    }
  }

  lemma NotConsumable(baseNames: set<string>, properties: seq<Property>, k: nat)
    requires k <= |properties| && !Consumable(baseNames, properties, k)
    ensures !Consumable(baseNames, properties, |properties|)
  {
  }

  ghost predicate PropertiesSoFar(baseNames: set<string>, properties: seq<Property>, k: nat, settled: seq<Property>,
                                  propertyBase: map<string, string>, consumed: map<string, string>, renames: map<string, string>) {
    && |settled| == k <= |properties|
    && (forall i {:trigger settled[i]} :: 0 <= i < k ==> settled[i] == properties[i].(renameFrom := ""))
    && ContinuitySoFar(baseNames, properties, k, propertyBase, consumed) && RenamesSoFar(properties, k, consumed, renames)
    && SourcesSoFar(baseNames, properties, k, propertyBase)
    && Consumable(baseNames, properties, k) && ConsumedSoFar(baseNames, properties, k, consumed)
  }

  lemma NextConsumable(baseNames: set<string>, properties: seq<Property>, k: nat, settled: seq<Property>,
                       propertyBase: map<string, string>, consumed: map<string, string>, renames: map<string, string>)
    requires k < |properties| && PropertiesSoFar(baseNames, properties, k, settled, propertyBase, consumed, renames)
    ensures var source := SourceOf(baseNames, properties[k]);
            !SourceAllowed(baseNames, properties[k]) || (source != "" && source in consumed) ==> !Consumable(baseNames, properties, |properties|)
  {
    ConsumedMore(baseNames, properties, k, consumed);
    if !Consumable(baseNames, properties, k + 1) {
      NotConsumable(baseNames, properties, k + 1);
    }
  }

  lemma NextProperty(baseNames: set<string>, properties: seq<Property>, k: nat, settled: seq<Property>,
                     propertyBase: map<string, string>, consumed: map<string, string>, renames: map<string, string>)
    requires "" !in baseNames && k < |properties| && PropertiesSoFar(baseNames, properties, k, settled, propertyBase, consumed, renames)
    requires SourceAllowed(baseNames, properties[k])
    requires SourceOf(baseNames, properties[k]) != "" ==> SourceOf(baseNames, properties[k]) !in consumed
    ensures var property, source := properties[k], SourceOf(baseNames, properties[k]);
            PropertiesSoFar(baseNames, properties, k + 1, settled + [property.(renameFrom := "")], propertyBase[property.name := source],
                            if source == "" then consumed else consumed[source := property.name],
                            if property.renameFrom == "" then renames else renames[property.renameFrom := property.name])
  {
    ContinuityMore(baseNames, properties, k, propertyBase, consumed, SourceOf(baseNames, properties[k]));
    RenamesMore(baseNames, properties, k, consumed, renames);
    ConsumedMore(baseNames, properties, k, consumed);
  }

  lemma AllProperties(baseNames: set<string>, properties: seq<Property>, settled: seq<Property>,
                      propertyBase: map<string, string>, consumed: map<string, string>, renames: map<string, string>)
    requires PropertiesSoFar(baseNames, properties, |properties|, settled, propertyBase, consumed, renames)
    ensures Continuity(baseNames, properties, propertyBase) && Sources(baseNames, properties, propertyBase)
    ensures RenamesIn(properties, |properties|, renames) && Consumable(baseNames, properties, |properties|)
  {
  }

  // The Property loop of resolveDerivedReferences.
  method ResolveProperties(baseNames: set<string>, properties: seq<Property>)
      returns (r: Result<(seq<Property>, map<string, string>, map<string, string>)>)
    requires "" !in baseNames
    ensures r.Success? <==> Consumable(baseNames, properties, |properties|)
    ensures r.Success? ==>
              && |r.value.0| == |properties|
              && (forall i {:trigger r.value.0[i]} :: 0 <= i < |properties| ==> r.value.0[i] == properties[i].(renameFrom := ""))
              && Continuity(baseNames, properties, r.value.1) && Sources(baseNames, properties, r.value.1)
              && RenamesIn(properties, |properties|, r.value.2)
  {
    var propertyBase: map<string, string>, consumed: map<string, string>, renames: map<string, string> := map[], map[], map[];
    var settled: seq<Property> := [];
    var k := 0;
    while k < |properties|
      invariant 0 <= k <= |properties| && PropertiesSoFar(baseNames, properties, k, settled, propertyBase, consumed, renames)
    {
      var property := properties[k];
      var source := SourceOf(baseNames, property);
      NextConsumable(baseNames, properties, k, settled, propertyBase, consumed, renames);
      if property.renameFrom != "" {
        if property.renameFrom == property.name {
          return Failure(TypeError);
        }
        if property.renameFrom !in baseNames {
          return Failure(ObjectNotFound);
        }
      }
      if source != "" && source in consumed {
        return Failure(ObjectConflict);
      }
      NextProperty(baseNames, properties, k, settled, propertyBase, consumed, renames);
      if property.renameFrom != "" {
        renames := renames[property.renameFrom := property.name];
      }
      if source != "" {
        consumed := consumed[source := property.name];
      }
      propertyBase := propertyBase[property.name := source];
      settled := settled + [property.(renameFrom := "")];
      k := k + 1;
    }
    AllProperties(baseNames, properties, settled, propertyBase, consumed, renames);
    return Success((settled, propertyBase, renames));
  }

  ghost predicate RenamesSoFar(properties: seq<Property>, k: nat, consumed: map<string, string>, renames: map<string, string>) {
    RenamesIn(properties, k, renames) && renames.Keys <= consumed.Keys
  }

  ghost predicate SourcesSoFar(baseNames: set<string>, properties: seq<Property>, k: nat, propertyBase: map<string, string>) {
    k <= |properties| &&
    (DistinctProperties(properties) ==>
      forall i {:trigger properties[i]} :: 0 <= i < k ==>
        properties[i].name in propertyBase && propertyBase[properties[i].name] == SourceOf(baseNames, properties[i]))
  }

  lemma RenamesMore(baseNames: set<string>, properties: seq<Property>, k: nat, consumed: map<string, string>, renames: map<string, string>)
    requires k < |properties| && RenamesSoFar(properties, k, consumed, renames)
    requires var source := SourceOf(baseNames, properties[k]); source != "" ==> source !in consumed
    ensures var p := properties[k];
            RenamesSoFar(properties, k + 1,
                         if SourceOf(baseNames, p) != "" then consumed[SourceOf(baseNames, p) := p.name] else consumed,
                         if p.renameFrom != "" then renames[p.renameFrom := p.name] else renames)
  {
    var p := properties[k];
    var after := if p.renameFrom != "" then renames[p.renameFrom := p.name] else renames;
    forall source | source in after
      ensures exists i {:trigger properties[i]} :: 0 <= i < k + 1 && properties[i].renameFrom == source != "" && properties[i].name == after[source]
    {
      if source == p.renameFrom {
        assert properties[k].name == after[source];
      } else {
        var i :| 0 <= i < k && properties[i].renameFrom == source != "" && properties[i].name == renames[source];
        assert properties[i].name == after[source];
      }
    }
  }

  // ----- one object

  // What resolving and normalizing must leave of an object.
  ghost predicate Settled(base: Objects, r: Ref, planned: PlannedObject) {
    && RefOf(planned.value) == r && Shaped(planned.value)
    && (planned.value.DomainValue? ==>
         var includes := planned.value.domain.includes;
         (forall m :: m in includes ==> m.To?) && Distinct(includes) && Ordered(includes, MemberKey))
    && (planned.value.DefinitionValue? ==> DistinctProperties(planned.value.definition.properties))
    && (planned.baseRef.Some? ==> planned.baseRef.value in base && planned.baseRef.value.kind == r.kind)
    && (planned.value.DefinitionValue? && planned.baseRef.Some? ==>
         Continuity(BaseNames(base, planned.baseRef.value), planned.value.definition.properties, planned.propertyBase))
    && (planned.baseRef.None? ==> forall name :: name in planned.propertyBase ==> planned.propertyBase[name] == "")
  }

  function BaseNames(base: Objects, b: Ref): set<string> {
    if b in base && base[b].DefinitionValue? then PropertyNames(base[b].definition.properties) else {}
  }

  function BaseIncludes(base: Objects, planned: PlannedObject): seq<Reference> {
    if planned.baseRef.Some? && planned.baseRef.value in base && base[planned.baseRef.value].DomainValue?
    then base[planned.baseRef.value].domain.includes else []
  }

  // A Domain's members: aliases and renames substituted once.
  ghost predicate MembersSubstituted(aliases: map<string, Ref>, transitions: Transitions, before: seq<Reference>, after: seq<Reference>) {
    forall m :: m in after <==> exists i :: 0 <= i < |before| && m == Substituted(aliases, transitions, before[i])
  }

  // One by one.
  ghost predicate EachSubstituted(aliases: map<string, Ref>, transitions: Transitions, before: seq<Reference>, after: seq<Reference>) {
    |after| == |before| && forall i {:trigger after[i]} :: 0 <= i < |before| ==> after[i] == Substituted(aliases, transitions, before[i])
  }

  function Substituted(aliases: map<string, Ref>, transitions: Transitions, m: Reference): Reference {
    ReferencePlan.Renamed(transitions, if m.New? && m.alias in aliases then To(aliases[m.alias]) else m)
  }

  // ----- what can be resolved

  function Known(base: Objects, transitions: Transitions): set<Ref> {
    base.Keys + transitions.Values
  }

  // The members as references, where they resolve.
  function ResolvedMembers(aliases: map<string, Ref>, known: set<Ref>, includes: seq<Reference>): (r: seq<Reference>)
    ensures |r| == |includes|
  {
    seq(|includes|, i requires 0 <= i < |includes| =>
      match Resolve(aliases, known, includes[i]) case Success(m) => m case Failure(_) => includes[i])
  }

  // Every member resolves, and an explicit edit drops none whose rename must be carried along.
  ghost predicate DomainResolves(base: Objects, aliases: map<string, Ref>, transitions: Transitions, planned: PlannedObject)
    requires planned.value.DomainValue?
  {
    var includes, known := planned.value.domain.includes, Known(base, transitions);
    && (forall i {:trigger includes[i]} :: 0 <= i < |includes| ==> Resolve(aliases, known, includes[i]).Success?)
    && !(planned.explicitlyEdited
         && exists oldRef :: Dropped(transitions, BaseIncludes(base, planned), ResolvedMembers(aliases, known, includes), oldRef))
  }

  // The endpoint resolves, and an explicit edit points no renamed endpoint elsewhere.
  ghost predicate EndResolves(base: Objects, aliases: map<string, Ref>, transitions: Transitions, derived: bool, before: Option<Reference>,
                              end: Option<Reference>, explicit: bool) {
    && (end.Some? ==> Resolve(aliases, Known(base, transitions), end.value).Success?)
    && !(derived && explicit
         && PointsAway(transitions, before, if end.None? then None else Some(Resolve(aliases, Known(base, transitions), end.value).value)))
  }

  ghost predicate DefinitionResolves(base: Objects, aliases: map<string, Ref>, transitions: Transitions, planned: PlannedObject)
    requires planned.value.DefinitionValue?
  {
    var d := planned.value.definition;
    var derived := d.kind == RelationshipDefinition && planned.baseRef.Some?;
    && (planned.baseRef.Some? ==> Consumable(BaseNames(base, planned.baseRef.value), d.properties, |d.properties|))
    && EndResolves(base, aliases, transitions, derived, BaseEnds(base, planned).0, d.from, planned.explicitlyEdited)
    && EndResolves(base, aliases, transitions, derived, BaseEnds(base, planned).1, d.to, planned.explicitlyEdited)
  }

  ghost predicate ObjectResolves(base: Objects, aliases: map<string, Ref>, transitions: Transitions, planned: PlannedObject) {
    match planned.value
    case DomainValue(_) => DomainResolves(base, aliases, transitions, planned)
    case DefinitionValue(_) => DefinitionResolves(base, aliases, transitions, planned)
  }

  method ResolveDomain(base: Objects, aliases: map<string, Ref>, transitions: Transitions, planned: PlannedObject) returns (r: Result<PlannedObject>)
    requires planned.value.DomainValue?
    ensures Clean(transitions) ==> (r.Success? <==> DomainResolves(base, aliases, transitions, planned))
    ensures r.Success? ==>
              && r.value.value.DomainValue? && r.value == planned.(value := DomainValue(planned.value.domain.(includes := r.value.value.domain.includes)))
              && (forall m :: m in r.value.value.domain.includes ==> m.To?)
    ensures r.Success? && Clean(transitions) ==>
              && EachSubstituted(aliases, transitions, planned.value.domain.includes, r.value.value.domain.includes)
              && MembersSubstituted(aliases, transitions, planned.value.domain.includes, r.value.value.domain.includes)
  {
    var domain := planned.value.domain;
    var resolved := ResolveAll(aliases, Known(base, transitions), domain.includes);
    if resolved.Failure? {
      return Failure(resolved.code);
    }
    assert resolved.value == ResolvedMembers(aliases, Known(base, transitions), domain.includes);
    var renamed, order := RenameMembers(transitions, BaseIncludes(base, planned), planned.explicitlyEdited, resolved.value);
    if renamed.Failure? {
      return Failure(renamed.code);
    }
    WalkedAreRefs(transitions, order, resolved.value);
    if Clean(transitions) {
      WalkedAreSubstituted(aliases, base.Keys + transitions.Values, transitions, order, domain.includes, resolved.value);
    }
    return Success(planned.(value := DomainValue(domain.(includes := renamed.value))));
  }

  lemma {:induction false} WalkIsRef(transitions: Transitions, order: seq<Ref>, m: Reference)
    requires m.To?
    ensures Walk(transitions, order, m).To?
  {
    if order != [] {
      WalkIsRef(transitions, order[1..], Round(transitions, order[0], m));
    }
  }

  lemma WalkedAreRefs(transitions: Transitions, order: seq<Ref>, resolved: seq<Reference>)
    requires forall i {:trigger resolved[i]} :: 0 <= i < |resolved| ==> resolved[i].To?
    ensures forall m :: m in WalkAll(transitions, order, resolved) ==> m.To?
  {
    forall m | m in WalkAll(transitions, order, resolved) ensures m.To? {
      var i :| 0 <= i < |resolved| && WalkAll(transitions, order, resolved)[i] == m;
      WalkIsRef(transitions, order, resolved[i]);
    }
  }

  lemma WalkedAreSubstituted(aliases: map<string, Ref>, known: set<Ref>, transitions: Transitions, order: seq<Ref>,
                             before: seq<Reference>, resolved: seq<Reference>)
    requires Clean(transitions) && Lists(order, transitions) && |resolved| == |before|
    requires forall i {:trigger resolved[i]} :: 0 <= i < |before| ==> Resolve(aliases, known, before[i]) == Success(resolved[i])
    ensures EachSubstituted(aliases, transitions, before, WalkAll(transitions, order, resolved))
    ensures MembersSubstituted(aliases, transitions, before, WalkAll(transitions, order, resolved))
  {
    var after := WalkAll(transitions, order, resolved);
    OrderIrrelevant(transitions);
    forall i | 0 <= i < |before| ensures after[i] == Substituted(aliases, transitions, before[i]) {
      assert Resolve(aliases, known, before[i]) == Success(resolved[i]);
      assert Walk(transitions, order, resolved[i]) == ReferencePlan.Renamed(transitions, resolved[i]);
    }
    forall m ensures m in after <==> exists i :: 0 <= i < |before| && m == Substituted(aliases, transitions, before[i]) {
      if m in after {
        var i :| 0 <= i < |after| && after[i] == m;
        assert m == Substituted(aliases, transitions, before[i]);
      }
      if i :| 0 <= i < |before| && m == Substituted(aliases, transitions, before[i]) {
        assert after[i] == m;
      }
    }
  }

  method ResolveEnd(base: Objects, aliases: map<string, Ref>, transitions: Transitions, derived: bool, before: Option<Reference>, end: Option<Reference>, explicit: bool)
      returns (r: Result<Option<Reference>>)
    ensures Clean(transitions) ==> (r.Success? <==> EndResolves(base, aliases, transitions, derived, before, end, explicit))
    ensures r.Success? && Clean(transitions) ==>
              r.value == if end.None? then None else Some(Substituted(aliases, transitions, end.value))
  {
    var resolved := end;
    if end.Some? {
      var one := Resolve(aliases, Known(base, transitions), end.value);
      if one.Failure? {
        return Failure(one.code);
      }
      resolved := Some(one.value);
    }
    if derived {
      r := ApplyEndpointTransitions(transitions, before, resolved, explicit);
    } else {
      return Success(RenamedEnd(transitions, resolved));
    }
  }

  function BaseEnds(base: Objects, planned: PlannedObject): (Option<Reference>, Option<Reference>) {
    if planned.baseRef.Some? && planned.baseRef.value in base && base[planned.baseRef.value].DefinitionValue?
    then (base[planned.baseRef.value].definition.from, base[planned.baseRef.value].definition.to) else (None, None)
  }

  function EndSubstituted(aliases: map<string, Ref>, transitions: Transitions, end: Option<Reference>): Option<Reference> {
    if end.None? then None else Some(Substituted(aliases, transitions, end.value))
  }

  // A resolved object: its references are Refs, its Properties carry no renameFrom and continue their sources.
  ghost predicate ResolvedFrom(base: Objects, before: PlannedObject, after: PlannedObject, renames: map<string, string>) {
    && after == before.(value := after.value, propertyBase := after.propertyBase)
    && match before.value
       case DomainValue(d) =>
         && after.value.DomainValue? && after.value.domain == d.(includes := after.value.domain.includes)
         && (forall m :: m in after.value.domain.includes ==> m.To?)
         && after.propertyBase == before.propertyBase && renames == map[]
       case DefinitionValue(d) =>
         && after.value.DefinitionValue?
         && after.value.definition == d.(properties := after.value.definition.properties, from := after.value.definition.from, to := after.value.definition.to)
         && PropertiesResolved(base, before.baseRef, d.properties, after.value.definition.properties, before.propertyBase, after.propertyBase, renames)
  }

  ghost predicate PropertiesResolved(base: Objects, baseRef: Option<Ref>, before: seq<Property>, after: seq<Property>,
                                     propertyBase: map<string, string>, resolvedBase: map<string, string>, renames: map<string, string>) {
    match baseRef
    case None => after == before && resolvedBase == propertyBase && renames == map[]
    case Some(b) =>
      && |after| == |before| && (forall i {:trigger after[i]} :: 0 <= i < |before| ==> after[i] == before[i].(renameFrom := ""))
      && Continuity(BaseNames(base, b), before, resolvedBase) && Sources(BaseNames(base, b), before, resolvedBase)
      && RenamesIn(before, |before|, renames)
  }

  method ResolveDefinition(base: Objects, aliases: map<string, Ref>, transitions: Transitions, planned: PlannedObject)
      returns (r: Result<(PlannedObject, map<string, string>)>)
    requires planned.value.DefinitionValue?
    requires planned.baseRef.Some? ==> "" !in BaseNames(base, planned.baseRef.value)
    ensures Clean(transitions) ==> (r.Success? <==> DefinitionResolves(base, aliases, transitions, planned))
    ensures r.Success? ==> ResolvedFrom(base, planned, r.value.0, r.value.1)
    ensures r.Success? && Clean(transitions) ==> OnceSubstituted(aliases, transitions, planned.value, r.value.0.value)
  {
    var definition := planned.value.definition;
    var properties, propertyBase, renames: map<string, string> := definition.properties, planned.propertyBase, map[];
    if planned.baseRef.Some? {
      var resolved := ResolveProperties(BaseNames(base, planned.baseRef.value), properties);
      if resolved.Failure? {
        return Failure(resolved.code);
      }
      properties, propertyBase, renames := resolved.value.0, resolved.value.1, resolved.value.2;
    }
    var derived := definition.kind == RelationshipDefinition && planned.baseRef.Some?;
    var from := ResolveEnd(base, aliases, transitions, derived, BaseEnds(base, planned).0, definition.from, planned.explicitlyEdited);
    if from.Failure? {
      return Failure(from.code);
    }
    var to := ResolveEnd(base, aliases, transitions, derived, BaseEnds(base, planned).1, definition.to, planned.explicitlyEdited);
    if to.Failure? {
      return Failure(to.code);
    }
    return Success((planned.(value := DefinitionValue(definition.(properties := properties, from := from.value, to := to.value)), propertyBase := propertyBase),
                    renames));
  }

  method ResolveObject(base: Objects, aliases: map<string, Ref>, transitions: Transitions, planned: PlannedObject)
      returns (r: Result<(PlannedObject, map<string, string>)>)
    requires planned.baseRef.Some? ==> "" !in BaseNames(base, planned.baseRef.value)
    ensures Clean(transitions) ==> (r.Success? <==> ObjectResolves(base, aliases, transitions, planned))
    ensures r.Success? ==> ResolvedFrom(base, planned, r.value.0, r.value.1)
    ensures r.Success? && Clean(transitions) ==> OnceSubstituted(aliases, transitions, planned.value, r.value.0.value)
  {
    match planned.value {
      case DomainValue(_) =>
        var resolved := ResolveDomain(base, aliases, transitions, planned);
        if resolved.Failure? {
          return Failure(resolved.code);
        }
        return Success((resolved.value, map[]));
      case DefinitionValue(_) =>
        r := ResolveDefinition(base, aliases, transitions, planned);
    }
  }

  // ----- normalizeObject

  // normalizeSet: no duplicates, in order.
  method NormalizeSet(values: seq<Reference>) returns (r: Result<seq<Reference>>)
    ensures r.Success? <==> Distinct(values)
    ensures r.Success? ==> Distinct(r.value) && Ordered(r.value, MemberKey) && forall m :: m in r.value <==> m in values
  {
    var seen: set<Reference> := {};
    var k := 0;
    while k < |values|
      invariant 0 <= k <= |values| && Distinct(values[..k]) && forall m :: m in seen <==> m in values[..k]
    {
      assert values[..k + 1] == values[..k] + [values[k]];
      if values[k] in seen {
        var i :| 0 <= i < k && values[i] == values[k];
        return Failure(TypeError);
      }
      seen := seen + {values[k]};
      k := k + 1;
    }
    assert values[..k] == values;
    var sorted := SortSlice(values, MemberKey);
    PermutedDistinct(values, sorted);
    return Success(sorted);
  }

  function NameOf(p: Property): string {
    p.name
  }

  // Duplicate Property names are refused; the list is put in order of name.
  method NormalizeProperties(properties: seq<Property>) returns (r: Result<seq<Property>>)
    ensures r.Success? <==> DistinctProperties(properties)
    ensures r.Success? ==> DistinctProperties(r.value) && multiset(r.value) == multiset(properties) && Ordered(r.value, NameOf)
  {
    var names: set<string> := {};
    var k := 0;
    while k < |properties|
      invariant 0 <= k <= |properties|
      invariant forall i, j :: 0 <= i < j < k ==> properties[i].name != properties[j].name
      invariant forall i :: 0 <= i < k ==> properties[i].name in names
      invariant forall name :: name in names ==> exists i :: 0 <= i < k && properties[i].name == name
    {
      if properties[k].name in names {
        return Failure(TypeError);
      }
      names := names + {properties[k].name};
      k := k + 1;
    }
    var sorted := SortSlice(properties, NameOf);
    SortedNamesDistinct(properties, sorted);
    return Success(sorted);
  }

  lemma {:induction false} NameOnce(properties: seq<Property>, p: Property, q: Property)
    requires DistinctProperties(properties) && p in properties && q in properties && p.name == q.name
    ensures p == q && multiset(properties)[p] == 1
  {
    assert Distinct(properties);
    CountsOnce(properties, p);
  }

  lemma SortedNamesDistinct(properties: seq<Property>, sorted: seq<Property>)
    requires DistinctProperties(properties) && multiset(sorted) == multiset(properties)
    ensures DistinctProperties(sorted)
  {
    forall i, j | 0 <= i < j < |sorted| ensures sorted[i].name != sorted[j].name {
      assert sorted[i] in multiset(sorted) && sorted[j] in multiset(sorted);
      assert sorted[i] in properties && sorted[j] in properties;
      if sorted[i].name == sorted[j].name {
        NameOnce(properties, sorted[i], sorted[j]);
        TwiceCounted(sorted, i, j);
      }
    }
  }

  lemma TwiceCounted<T>(s: seq<T>, i: nat, j: nat)
    requires i < j < |s| && s[i] == s[j]
    ensures multiset(s)[s[i]] >= 2
  {
    assert s == s[..i] + [s[i]] + s[i + 1..j] + [s[j]] + s[j + 1..];
  }

  // normalizeObject: members and Properties in order, nothing twice.
  ghost predicate NormalizedFrom(before: Value, after: Value) {
    match before
    case DomainValue(d) =>
      && after.DomainValue? && after.domain == d.(includes := after.domain.includes)
      && Distinct(after.domain.includes) && Ordered(after.domain.includes, MemberKey)
      && forall m :: m in after.domain.includes <==> m in d.includes
    case DefinitionValue(d) =>
      && after.DefinitionValue? && after.definition == d.(properties := after.definition.properties)
      && DistinctProperties(after.definition.properties) && Ordered(after.definition.properties, NameOf)
      && multiset(after.definition.properties) == multiset(d.properties)
  }

  // Nothing is listed twice.
  ghost predicate NothingTwice(value: Value) {
    match value
    case DomainValue(d) => Distinct(d.includes)
    case DefinitionValue(d) => DistinctProperties(d.properties)
  }

  method NormalizeObject(value: Value) returns (r: Result<Value>)
    ensures r.Success? ==> NormalizedFrom(value, r.value)
    ensures r.Success? <==> NothingTwice(value)
  {
    match value {
      case DomainValue(d) =>
        var includes := NormalizeSet(d.includes);
        if includes.Failure? {
          return Failure(includes.code);
        }
        return Success(DomainValue(d.(includes := includes.value)));
      case DefinitionValue(d) =>
        var properties := NormalizeProperties(d.properties);
        if properties.Failure? {
          return Failure(properties.code);
        }
        return Success(DefinitionValue(d.(properties := properties.value)));
    }
  }

  // Members and endpoints are those of the body before, aliases and renames substituted exactly once.
  ghost predicate ReferencesSubstituted(aliases: map<string, Ref>, transitions: Transitions, before: Value, after: Value) {
    match before
    case DomainValue(d) =>
      after.DomainValue? && MembersSubstituted(aliases, transitions, d.includes, after.domain.includes)
    case DefinitionValue(d) =>
      after.DefinitionValue?
      && after.definition.from == EndSubstituted(aliases, transitions, d.from)
      && after.definition.to == EndSubstituted(aliases, transitions, d.to)
  }

  // And every member stands where it stood.
  ghost predicate OnceSubstituted(aliases: map<string, Ref>, transitions: Transitions, before: Value, after: Value) {
    && ReferencesSubstituted(aliases, transitions, before, after)
    && (before.DomainValue? ==> EachSubstituted(aliases, transitions, before.domain.includes, after.domain.includes))
  }

  // ----- all objects

  // The decoded base: its Properties are named.
  ghost predicate NamedProperties(base: Objects) {
    forall b {:trigger base[b]} :: b in base ==> "" !in BaseNames(base, b)
  }

  function RenamesFor(renames: map<Ref, map<string, string>>, q: Ref): map<string, string> {
    if q in renames then renames[q] else map[]
  }

  ghost predicate OneResolved(base: Objects, aliases: map<string, Ref>, transitions: Transitions, before: PlannedObject, after: PlannedObject,
                              renames: map<string, string>) {
    && ResolvedFrom(base, before, after, renames)
    && (Clean(transitions) ==> OnceSubstituted(aliases, transitions, before.value, after.value))
  }

  ghost predicate AllResolved(base: Objects, aliases: map<string, Ref>, transitions: Transitions, objects: PlannedObjects, resolved: PlannedObjects,
                              renames: map<Ref, map<string, string>>) {
    && resolved.Keys <= objects.Keys && renames.Keys <= resolved.Keys
    && forall q {:trigger ResolvedAt(base, aliases, transitions, objects, resolved, renames, q)} :: ResolvedAt(base, aliases, transitions, objects, resolved, renames, q)
  }

  ghost predicate ResolvedAt(base: Objects, aliases: map<string, Ref>, transitions: Transitions, objects: PlannedObjects, resolved: PlannedObjects,
                             renames: map<Ref, map<string, string>>, q: Ref) {
    q in resolved ==> q in objects && OneResolved(base, aliases, transitions, objects[q], resolved[q], RenamesFor(renames, q))
  }

  lemma StillResolved(base: Objects, aliases: map<string, Ref>, transitions: Transitions, objects: PlannedObjects, resolved: PlannedObjects,
                      renames: map<Ref, map<string, string>>, after: PlannedObjects, more: map<Ref, map<string, string>>, q: Ref)
    requires ResolvedAt(base, aliases, transitions, objects, resolved, renames, q)
    requires q in after ==> q in resolved && after[q] == resolved[q] && RenamesFor(more, q) == RenamesFor(renames, q)
    ensures ResolvedAt(base, aliases, transitions, objects, after, more, q)
  {
  }

  lemma OneMoreResolved(base: Objects, aliases: map<string, Ref>, transitions: Transitions, objects: PlannedObjects, resolved: PlannedObjects,
                        renames: map<Ref, map<string, string>>, q: Ref, one: PlannedObject, names: map<string, string>)
    requires AllResolved(base, aliases, transitions, objects, resolved, renames) && q in objects && q !in resolved
    requires OneResolved(base, aliases, transitions, objects[q], one, names)
    ensures AllResolved(base, aliases, transitions, objects, resolved[q := one], if |names| != 0 then renames[q := names] else renames)
  {
    var more := if |names| != 0 then renames[q := names] else renames;
    assert |names| == 0 ==> names == map[];
    assert RenamesFor(more, q) == names;
    var after := resolved[q := one];
    forall p ensures ResolvedAt(base, aliases, transitions, objects, after, more, p) {
      assert ResolvedAt(base, aliases, transitions, objects, resolved, renames, p);
      if p != q {
        StillResolved(base, aliases, transitions, objects, resolved, renames, after, more, p);
      }
    }
  }

  // resolveDerivedReferences, in any order.
  method ResolveDerivedReferences(base: Objects, objects: PlannedObjects, aliases: map<string, Ref>, transitions: Transitions)
      returns (r: Result<(PlannedObjects, map<Ref, map<string, string>>)>)
    requires forall q {:trigger objects[q]} :: q in objects && objects[q].baseRef.Some? ==> "" !in BaseNames(base, objects[q].baseRef.value)
    ensures Clean(transitions) ==>
              (r.Success? <==> forall q {:trigger objects[q]} :: q in objects ==> ObjectResolves(base, aliases, transitions, objects[q]))
    ensures r.Success? ==> r.value.0.Keys == objects.Keys && AllResolved(base, aliases, transitions, objects, r.value.0, r.value.1)
  {
    var resolved: PlannedObjects, renames: map<Ref, map<string, string>> := map[], map[];
    var todo := objects.Keys;
    while todo != {}
      invariant todo <= objects.Keys && resolved.Keys == objects.Keys - todo
      invariant AllResolved(base, aliases, transitions, objects, resolved, renames)
      invariant Clean(transitions) ==> forall q {:trigger objects[q]} :: q in objects && q !in todo ==> ObjectResolves(base, aliases, transitions, objects[q])
      decreases |todo|
    {
      var q :| q in todo;
      todo := todo - {q};
      var one := ResolveObject(base, aliases, transitions, objects[q]);
      if one.Failure? {
        return Failure(one.code);
      }
      OneMoreResolved(base, aliases, transitions, objects, resolved, renames, q, one.value.0, one.value.1);
      resolved := resolved[q := one.value.0];
      if |one.value.1| != 0 {
        renames := renames[q := one.value.1];
      }
    }
    return Success((resolved, renames));
  }

  // normalizeObject on every object, in any order.
  method NormalizeAll(values: Objects) returns (r: Result<Objects>)
    ensures r.Success? <==> forall q {:trigger values[q]} :: q in values ==> NothingTwice(values[q])
    ensures r.Success? ==> r.value.Keys == values.Keys && forall q {:trigger r.value[q]} :: q in values ==> NormalizedFrom(values[q], r.value[q])
  {
    var done: Objects := map[];
    var todo := values.Keys;
    while todo != {}
      invariant todo <= values.Keys && done.Keys == values.Keys - todo
      invariant forall q {:trigger done[q]} :: q in done ==> NormalizedFrom(values[q], done[q])
      invariant forall q {:trigger values[q]} :: q in values && q !in todo ==> NothingTwice(values[q])
      decreases |todo|
    {
      var q :| q in todo;
      todo := todo - {q};
      var one := NormalizeObject(values[q]);
      if one.Failure? {
        return Failure(one.code);
      }
      done := done[q := one.value];
    }
    return Success(done);
  }

  // Every member and every endpoint names a planned object, endpoints a node Definition.
  ghost predicate ReferencesNamed(objects: PlannedObjects, value: Value) {
    match value
    case DomainValue(d) => forall m :: m in d.includes ==> m.To? && m.ref in objects
    case DefinitionValue(d) => d.kind == RelationshipDefinition ==> EndNamed(objects, d.from) && EndNamed(objects, d.to)
  }

  predicate EndNamed(objects: PlannedObjects, end: Option<Reference>) {
    end.Some? ==> end.value.To? && end.value.ref.kind == NodeDefinition && end.value.ref in objects
  }

  method ValidateReferences(objects: PlannedObjects) returns (ok: bool)
    ensures ok <==> forall r {:trigger objects[r]} :: r in objects ==> ReferencesNamed(objects, objects[r].value)
  {
    var todo := objects.Keys;
    while todo != {}
      invariant todo <= objects.Keys
      invariant forall r {:trigger objects[r]} :: r in objects && r !in todo ==> ReferencesNamed(objects, objects[r].value)
      decreases |todo|
    {
      var r :| r in todo;
      todo := todo - {r};
      match objects[r].value {
        case DomainValue(d) =>
          var k := 0;
          while k < |d.includes|
            invariant 0 <= k <= |d.includes| && forall i :: 0 <= i < k ==> d.includes[i].To? && d.includes[i].ref in objects
          {
            if d.includes[k].New? || d.includes[k].ref !in objects {
              assert d.includes[k] in d.includes && !ReferencesNamed(objects, objects[r].value);
              return false;
            }
            k := k + 1;
          }
        case DefinitionValue(d) =>
          if d.kind == RelationshipDefinition && !(EndNamed(objects, d.from) && EndNamed(objects, d.to)) {
            assert !ReferencesNamed(objects, objects[r].value);
            return false;
          }
      }
    }
    return true;
  }

  // What planning promises the compiler.
  lemma SettledPlanValid(codec: Codec, entries: seq<Entry>, base: Snapshot, before: PlannedObjects, aliases: map<string, Ref>, transitions: Transitions,
                         objects: PlannedObjects)
    requires Accounted(codec, ObjectsOf(base), entries, |entries|, Progress(before, aliases, transitions)) && WellNamed(ObjectsOf(base))
    requires objects.Keys == before.Keys
    requires forall q {:trigger objects[q]} :: q in objects ==> Settled(ObjectsOf(base), q, objects[q]) && objects[q].baseRef == before[q].baseRef
    requires forall q {:trigger objects[q]} :: q in objects ==> ReferencesNamed(objects, objects[q].value)
    ensures ValidPlan(Plan(base, objects))
  {
    var plan := Plan(base, objects);
    forall r | r in Planned(plan) ensures WellFormedObject(Planned(plan), Planned(plan)[r]) {
      assert Settled(ObjectsOf(base), r, objects[r]) && ReferencesNamed(objects, objects[r].value);
    }
    assert WellNamed(Planned(plan)) by {
      forall r | r in Planned(plan) ensures r == RefOf(Planned(plan)[r]) && Shaped(Planned(plan)[r]) {
        assert Settled(ObjectsOf(base), r, objects[r]);
      }
    }
    forall r, name | r in objects && BaseName(objects[r], name) != "" && HasProperty(Planned(plan), r, name)
      ensures objects[r].baseRef.Some? && HasProperty(ObjectsOf(base), objects[r].baseRef.value, BaseName(objects[r], name))
    {
      SourceKnown(ObjectsOf(base), r, objects[r], name);
    }
    forall a, b | Kept(plan, a) && Kept(plan, b) && Claim(plan, a) == Claim(plan, b) ensures a == b {
      AtObject(codec, ObjectsOf(base), entries, |entries|, Progress(before, aliases, transitions), a.ref);
      AtObject(codec, ObjectsOf(base), entries, |entries|, Progress(before, aliases, transitions), b.ref);
      assert Settled(ObjectsOf(base), a.ref, objects[a.ref]);
    }
  }

  lemma SourceKnown(base: Objects, r: Ref, planned: PlannedObject, name: string)
    requires Settled(base, r, planned) && planned.value.DefinitionValue?
    requires name in PropertyNames(planned.value.definition.properties) && BaseName(planned, name) != ""
    ensures planned.baseRef.Some? && HasProperty(base, planned.baseRef.value, BaseName(planned, name))
  {
    var properties := planned.value.definition.properties;
    var i :| 0 <= i < |properties| && properties[i].name == name;
  }

  // ----- the whole plan

  // What planning went through: the entries' plan, the renamed references and Properties, and the indexes.
  datatype Made = Made(before: PlannedObjects, aliases: map<string, Ref>, transitions: Transitions, deltas: IP.Deltas,
                       resolved: PlannedObjects, renames: map<Ref, map<string, string>>,
                       gathered: IE.Indexes, moved: IE.Indexes, settled: IE.Indexes)

  function Values(objects: PlannedObjects): Objects {
    map q | q in objects :: objects[q].value
  }

  function MovesOf(m: Made): IR.Moves {
    IR.Moves(m.aliases, m.transitions, m.renames)
  }

  // Apart from its indexes, the object is the resolved one with its members or Properties in order.
  ghost predicate FinalFrom(before: Value, after: Value) {
    match before
    case DomainValue(d) =>
      && after.DomainValue? && after.domain == d.(includes := after.domain.includes)
      && Distinct(after.domain.includes) && Ordered(after.domain.includes, MemberKey)
      && forall m :: m in after.domain.includes <==> m in d.includes
    case DefinitionValue(d) =>
      && after.DefinitionValue?
      && after.definition == d.(properties := after.definition.properties, indexes := after.definition.indexes)
      && DistinctProperties(after.definition.properties) && Ordered(after.definition.properties, NameOf)
      && DistinctProperties(d.properties) && |after.definition.properties| == |d.properties|
      && forall p :: p in IE.BareProperties(after.definition.properties) <==> p in IE.BareProperties(d.properties)
  }

  ghost predicate ObjectMade(base: Objects, m: Made, q: Ref, final: PlannedObject) {
    && q in m.before && q in m.resolved && ResolvedFrom(base, m.before[q], m.resolved[q], RenamesFor(m.renames, q))
    && final == m.resolved[q].(value := final.value) && FinalFrom(m.resolved[q].value, final.value)
    && (Unchained(m.transitions) ==> ReferencesSubstituted(m.aliases, m.transitions, m.before[q].value, final.value))
  }

  // The plan is what the entries say of the base: every object as its entry edits or adds it, every member and
  // endpoint with aliases and renames substituted once, every index settled and written where it belongs.
  ghost predicate PlanMade(c: Codec, entries: seq<Entry>, plan: Plan, m: Made) {
    var base := ObjectsOf(plan.base);
    && Accepted(c, base, entries)
    && Accounted(c, base, entries, |entries|, Progress(m.before, m.aliases, m.transitions))
    && Recorded(ChangesMade(c, base, entries), |entries|, m.deltas)
    && plan.objects.Keys == m.before.Keys == m.resolved.Keys && m.renames.Keys <= m.resolved.Keys
    && (forall q {:trigger plan.objects[q]} :: q in plan.objects ==> ObjectMade(base, m, q, plan.objects[q]) && ReferencesNamed(plan.objects, plan.objects[q].value))
    && IX.Settles(base, Values(m.resolved), MovesOf(m), m.deltas, m.gathered, m.moved, m.settled)
    && IX.Projected(CompilerFacts.Planned(plan), m.settled)
  }

  lemma RecordedNamed(changes: seq<Option<ObjectChange>>, k: nat, deltas: IP.Deltas)
    requires k <= |changes| && Recorded(changes, k, deltas)
    ensures IP.NamedDeltas(deltas)
  {
    forall name, d | name in deltas && d in deltas[name] && d.Desire? ensures d.declaration.name == name {
      assert IP.ChangesOf(deltas, name) == deltas[name];
      DeltasNamed(changes, k, name);
    }
  }

  // ----- one object, from resolved to final

  lemma InBare(a: seq<Property>, p: Property)
    ensures p in IE.BareProperties(a) <==> exists q :: q in a && p == q.(indexes := [])
  {
    var b := IE.BareProperties(a);
    if p in b {
      var i :| 0 <= i < |b| && b[i] == p;
      assert a[i] in a;
    }
    if q :| q in a && p == q.(indexes := []) {
      var i :| 0 <= i < |a| && a[i] == q;
      assert b[i] == p;
    }
  }

  lemma SameBare(a: seq<Property>, b: seq<Property>, c: seq<Property>)
    requires IE.BareProperties(a) == IE.BareProperties(b) && multiset(c) == multiset(b)
    ensures |c| == |a| && forall p :: p in IE.BareProperties(c) <==> p in IE.BareProperties(a)
  {
    assert |multiset(c)| == |c| && |multiset(b)| == |b|;
    assert |IE.BareProperties(a)| == |a| && |IE.BareProperties(b)| == |b|;
    forall p ensures p in IE.BareProperties(c) <==> p in IE.BareProperties(a) {
      InBare(b, p);
      InBare(c, p);
      forall q ensures q in b <==> q in c {
        assert q in b <==> q in multiset(b);
        assert q in c <==> q in multiset(c);
      }
    }
  }

  lemma SameBareDistinct(a: seq<Property>, b: seq<Property>)
    requires IE.BareProperties(a) == IE.BareProperties(b)
    ensures DistinctProperties(a) <==> DistinctProperties(b)
  {
    var x, y := IE.BareProperties(a), IE.BareProperties(b);
    assert |x| == |a| && |y| == |b|;
    assert forall i {:trigger a[i]} {:trigger b[i]} :: 0 <= i < |a| ==> x[i].name == a[i].name && y[i].name == b[i].name;
  }

  lemma MadeFinal(resolved: Value, rebuilt: Value, final: Value, indexes: IE.Indexes, r: Ref)
    requires IX.Shows(resolved, rebuilt, indexes, indexes.Keys, r) && NormalizedFrom(rebuilt, final)
    ensures FinalFrom(resolved, final)
  {
    if resolved.DefinitionValue? {
      SameBare(resolved.definition.properties, rebuilt.definition.properties, final.definition.properties);
      SameHead(resolved.definition, rebuilt.definition);
      SortedNamesDistinct(final.definition.properties, rebuilt.definition.properties);
      SameBareDistinct(resolved.definition.properties, rebuilt.definition.properties);
    }
  }

  lemma SameHead(a: Definition, b: Definition)
    requires IE.Unindexed(a) == IE.Unindexed(b)
    ensures b == a.(properties := b.properties, indexes := b.indexes) && IE.BareProperties(a.properties) == IE.BareProperties(b.properties)
  {
    var x, y := IE.Unindexed(a), IE.Unindexed(b);
    assert x.properties == IE.BareProperties(a.properties) && y.properties == IE.BareProperties(b.properties);
    assert x == a.(indexes := [], properties := x.properties) && y == b.(indexes := [], properties := y.properties);
  }

  lemma FinalSubstituted(aliases: map<string, Ref>, transitions: Transitions, before: Value, resolved: Value, final: Value)
    requires ReferencesSubstituted(aliases, transitions, before, resolved) && FinalFrom(resolved, final)
    ensures ReferencesSubstituted(aliases, transitions, before, final)
  {
  }

  lemma PropertyIn(base: seq<Property>, final: seq<Property>, i: nat) returns (j: nat)
    requires i < |final| && forall p :: p in IE.BareProperties(final) <==> p in IE.BareProperties(base)
    ensures j < |base| && base[j].name == final[i].name
  {
    var p := IE.BareProperties(final)[i];
    assert p in IE.BareProperties(final);
    var b := IE.BareProperties(base);
    var k :| 0 <= k < |b| && b[k] == p;
    j := k;
  }

  lemma ContinuityOfFinal(names: set<string>, before: seq<Property>, resolved: seq<Property>, final: seq<Property>, propertyBase: map<string, string>)
    requires Continuity(names, before, propertyBase) && |resolved| == |before|
    requires forall i {:trigger resolved[i]} :: 0 <= i < |before| ==> resolved[i] == before[i].(renameFrom := "")
    requires forall p :: p in IE.BareProperties(final) <==> p in IE.BareProperties(resolved)
    ensures Continuity(names, final, propertyBase)
  {
    forall i | 0 <= i < |final|
      ensures final[i].name in propertyBase && (propertyBase[final[i].name] != "" ==> propertyBase[final[i].name] in names)
    {
      var j := PropertyIn(resolved, final, i);
      assert resolved[j].name == before[j].name;
    }
  }

  lemma MadeSettled(base: Objects, m: Made, q: Ref, final: PlannedObject)
    requires ObjectMade(base, m, q, final)
    requires RefOf(m.before[q].value) == q && Shaped(m.before[q].value) && NewIsNew(m.before[q])
    requires m.before[q].baseRef.Some? ==> m.before[q].baseRef.value in base && m.before[q].baseRef.value.kind == q.kind
    ensures Settled(base, q, final) && final.baseRef == m.before[q].baseRef
  {
    var before, resolved := m.before[q], m.resolved[q];
    if before.value.DefinitionValue? && before.baseRef.Some? {
      ContinuityOfFinal(BaseNames(base, before.baseRef.value), before.value.definition.properties, resolved.value.definition.properties,
                        final.value.definition.properties, final.propertyBase);
    }
  }

  // ----- indexes of the final objects

  lemma SameSpelled(a: Definition, b: Definition, e: IE.Entry)
    requires b == a.(properties := b.properties) && multiset(b.properties) == multiset(a.properties)
    ensures e in IE.Spelled(b) <==> e in IE.Spelled(a)
  {
    IE.SpelledFromDefinition(a, e);
    IE.SpelledFromDefinition(b, e);
    IE.SpelledFromProperty(a.properties, e);
    IE.SpelledFromProperty(b.properties, e);
    forall p ensures p in a.properties <==> p in b.properties {
      assert p in a.properties <==> p in multiset(a.properties);
      assert p in b.properties <==> p in multiset(b.properties);
    }
  }

  lemma FinalProjected(rebuilt: Objects, final: Objects, settled: IE.Indexes)
    requires IX.Projected(rebuilt, settled) && final.Keys == rebuilt.Keys
    requires forall q {:trigger final[q]} :: q in rebuilt ==> NormalizedFrom(rebuilt[q], final[q])
    ensures IX.Projected(final, settled)
  {
    forall name, t | name in settled && t in settled[name].targets ensures t in final && final[t].DefinitionValue? {
      assert t in rebuilt && rebuilt[t].DefinitionValue?;
      assert NormalizedFrom(rebuilt[t], final[t]);
    }
    forall r, e | r in final && final[r].DefinitionValue? ensures e in IE.Spelled(final[r].definition) <==> IX.ShownBy(settled, settled.Keys, r, e) {
      assert NormalizedFrom(rebuilt[r], final[r]);
      SameSpelled(rebuilt[r].definition, final[r].definition, e);
    }
  }

  // ----- planOntologyEntries

  lemma BasesNamed(c: Codec, base: Objects, entries: seq<Entry>, p: Progress)
    requires Accounted(c, base, entries, |entries|, p) && NamedProperties(base)
    ensures forall q {:trigger p.objects[q]} :: q in p.objects && p.objects[q].baseRef.Some? ==> "" !in BaseNames(base, p.objects[q].baseRef.value)
  {
    forall q | q in p.objects && p.objects[q].baseRef.Some? ensures "" !in BaseNames(base, p.objects[q].baseRef.value) {
      AtObject(c, base, entries, |entries|, p, q);
      assert base[p.objects[q].baseRef.value] == base[p.objects[q].baseRef.value];
    }
  }

  lemma OneMade(base: Objects, m: Made, rebuilt: Objects, value: Value, q: Ref)
    requires q in m.before && q in m.resolved && q in rebuilt
    requires OneResolved(base, m.aliases, m.transitions, m.before[q], m.resolved[q], RenamesFor(m.renames, q))
    requires Unchained(m.transitions) ==> Clean(m.transitions)
    requires IX.Shows(m.resolved[q].value, rebuilt[q], m.settled, m.settled.Keys, q) && NormalizedFrom(rebuilt[q], value)
    ensures ObjectMade(base, m, q, m.resolved[q].(value := value))
  {
    MadeFinal(m.resolved[q].value, rebuilt[q], value, m.settled, q);
    if Unchained(m.transitions) {
      FinalSubstituted(m.aliases, m.transitions, m.before[q].value, m.resolved[q].value, value);
    }
  }

  // Every object of the final plan.
  ghost predicate AllMade(base: Objects, m: Made, final: PlannedObjects) {
    forall q {:trigger final[q]} :: q in final ==> ObjectMade(base, m, q, final[q])
  }

  lemma ObjectsMade(base: Objects, m: Made, rebuilt: Objects, final: PlannedObjects)
    requires m.before.Keys == m.resolved.Keys == final.Keys
    requires AllResolved(base, m.aliases, m.transitions, m.before, m.resolved, m.renames) && (Unchained(m.transitions) ==> Clean(m.transitions))
    requires IX.Shown(Values(m.resolved), rebuilt, m.settled, m.settled.Keys) && FinalOf(m.resolved, rebuilt, final)
    ensures AllMade(base, m, final)
  {
    forall q | q in final ensures ObjectMade(base, m, q, final[q]) {
      assert Values(m.resolved)[q] == m.resolved[q].value;
      assert IX.Shows(Values(m.resolved)[q], rebuilt[q], m.settled, m.settled.Keys, q);
      assert NormalizedFrom(rebuilt[q], final[q].value);
      assert ResolvedAt(base, m.aliases, m.transitions, m.before, m.resolved, m.renames, q);
      OneMade(base, m, rebuilt, final[q].value, q);
    }
  }

  ghost predicate FinalOf(resolved: PlannedObjects, rebuilt: Objects, final: PlannedObjects) {
    && final.Keys == resolved.Keys == rebuilt.Keys
    && forall q {:trigger final[q]} :: q in final ==> final[q] == resolved[q].(value := final[q].value) && NormalizedFrom(rebuilt[q], final[q].value)
  }

  lemma ShownTwice(before: Value, after: Value, indexes: IE.Indexes, r: Ref)
    requires IX.Shows(before, after, indexes, indexes.Keys, r)
    ensures NothingTwice(before) <==> NothingTwice(after)
  {
    if before.DefinitionValue? {
      SameHead(before.definition, after.definition);
      SameBareDistinct(before.definition.properties, after.definition.properties);
    }
  }

  ghost predicate AllOnce(objects: PlannedObjects) {
    forall q {:trigger objects[q]} :: q in objects ==> NothingTwice(objects[q].value)
  }

  lemma AllShownOnce(resolved: PlannedObjects, rebuilt: Objects, indexes: IE.Indexes)
    requires IX.Shown(Values(resolved), rebuilt, indexes, indexes.Keys)
    ensures AllOnce(resolved) <==> forall q {:trigger rebuilt[q]} :: q in rebuilt ==> NothingTwice(rebuilt[q])
  {
    forall q | q in resolved ensures NothingTwice(resolved[q].value) <==> NothingTwice(rebuilt[q]) {
      assert Values(resolved)[q] == resolved[q].value;
      ShownTwice(resolved[q].value, rebuilt[q], indexes, q);
    }
    if forall q {:trigger rebuilt[q]} :: q in rebuilt ==> NothingTwice(rebuilt[q]) {
      forall q | q in resolved ensures NothingTwice(resolved[q].value) {
        assert NothingTwice(rebuilt[q]);
      }
    }
    if AllOnce(resolved) {
      forall q | q in rebuilt ensures NothingTwice(rebuilt[q]) {
        assert NothingTwice(resolved[q].value);
      }
    }
  }

  // rebuildIndexes and normalizeObject.
  method FinishObjects(base: Objects, resolved: PlannedObjects, moves: IR.Moves, deltas: IP.Deltas)
      returns (r: Result<PlannedObjects>, ghost rebuilt: Objects, ghost gathered: IE.Indexes, ghost moved: IE.Indexes, ghost settled: IE.Indexes)
    requires IP.NamedDeltas(deltas)
    ensures !IR.Disagreement(base, IR.Unmoving) ==> IX.Started(base, moves, gathered, moved)
    ensures r.Success? <==> IX.Settleable(base, Values(resolved), moves, deltas, moved) && AllOnce(resolved)
    ensures r.Success? ==>
              && IX.Settles(base, Values(resolved), moves, deltas, gathered, moved, settled)
              && IX.Shown(Values(resolved), rebuilt, settled, settled.Keys) && FinalOf(resolved, rebuilt, r.value)
              && IX.Projected(Values(r.value), settled)
  {
    var values := map q | q in resolved :: resolved[q].value;
    assert values == Values(resolved);
    rebuilt := map[];
    var shown;
    shown, gathered, moved, settled := IX.RebuildIndexes(base, values, moves, deltas);
    if shown.Failure? {
      r := Failure(shown.code);
      return;
    }
    rebuilt := shown.value;
    AllShownOnce(resolved, rebuilt, settled);
    var normal := NormalizeAll(shown.value);
    if normal.Failure? {
      r := Failure(normal.code);
      return;
    }
    var final: PlannedObjects := map q | q in resolved :: resolved[q].(value := normal.value[q]);
    FinalProjected(shown.value, normal.value, settled);
    assert Values(final) == normal.value;
    r := Success(final);
  }

  lemma AllSettled(c: Codec, base: Objects, entries: seq<Entry>, m: Made, final: PlannedObjects)
    requires Accounted(c, base, entries, |entries|, Progress(m.before, m.aliases, m.transitions)) && final.Keys == m.before.Keys
    requires AllMade(base, m, final)
    ensures forall q {:trigger final[q]} :: q in final ==> Settled(base, q, final[q]) && final[q].baseRef == m.before[q].baseRef
  {
    forall q | q in final ensures Settled(base, q, final[q]) && final[q].baseRef == m.before[q].baseRef {
      AtObject(c, base, entries, |entries|, Progress(m.before, m.aliases, m.transitions), q);
      assert ObjectMade(base, m, q, final[q]);
      MadeSettled(base, m, q, final[q]);
    }
  }

  ghost predicate AllResolve(base: Objects, m: Made) {
    forall q {:trigger m.before[q]} :: q in m.before ==> ObjectResolves(base, m.aliases, m.transitions, m.before[q])
  }

  ghost predicate AllNamed(objects: PlannedObjects) {
    forall r {:trigger objects[r]} :: r in objects ==> ReferencesNamed(objects, objects[r].value)
  }

  // What planning has come to, whether or not a plan comes of it: the objects the entries leave, those with their
  // references resolved, and the indexes of the base as the plan moves them.
  ghost predicate CameTo(c: Codec, base: Objects, entries: seq<Entry>, m: Made) {
    Accepted(c, base, entries) ==>
      && Accounted(c, base, entries, |entries|, Progress(m.before, m.aliases, m.transitions))
      && Recorded(ChangesMade(c, base, entries), |entries|, m.deltas)
      && (Clean(m.transitions) && AllResolve(base, m) ==> ResolvedTo(base, m))
  }

  ghost predicate ResolvedTo(base: Objects, m: Made) {
    && m.before.Keys == m.resolved.Keys && AllResolved(base, m.aliases, m.transitions, m.before, m.resolved, m.renames)
    && (!IR.Disagreement(base, IR.Unmoving) ==> IX.Started(base, MovesOf(m), m.gathered, m.moved))
  }

  // The entries make a plan: every object resolves, every index settles, nothing is listed twice, and what is
  // referred to is planned.
  ghost predicate Plannable(base: Objects, m: Made) {
    AllResolve(base, m) && IX.Settleable(base, Values(m.resolved), MovesOf(m), m.deltas, m.moved) && AllOnce(m.resolved) && AllNamed(m.resolved)
  }

  lemma FinalNamed(resolved: PlannedObjects, rebuilt: Objects, final: PlannedObjects, settled: IE.Indexes, q: Ref)
    requires IX.Shown(Values(resolved), rebuilt, settled, settled.Keys) && FinalOf(resolved, rebuilt, final) && q in final
    ensures ReferencesNamed(final, final[q].value) <==> ReferencesNamed(resolved, resolved[q].value)
  {
    assert Values(resolved)[q] == resolved[q].value;
    assert IX.Shows(Values(resolved)[q], rebuilt[q], settled, settled.Keys, q) && NormalizedFrom(rebuilt[q], final[q].value);
    MadeFinal(resolved[q].value, rebuilt[q], final[q].value, settled, q);
  }

  lemma AllFinalNamed(resolved: PlannedObjects, rebuilt: Objects, final: PlannedObjects, settled: IE.Indexes)
    requires IX.Shown(Values(resolved), rebuilt, settled, settled.Keys) && FinalOf(resolved, rebuilt, final)
    ensures AllNamed(final) <==> AllNamed(resolved)
  {
    forall q | q in final ensures ReferencesNamed(final, final[q].value) <==> ReferencesNamed(resolved, resolved[q].value) {
      FinalNamed(resolved, rebuilt, final, settled, q);
    }
    if AllNamed(resolved) {
      forall q | q in final ensures ReferencesNamed(final, final[q].value) {
        assert ReferencesNamed(resolved, resolved[q].value);
      }
    }
    if AllNamed(final) {
      forall q | q in resolved ensures ReferencesNamed(resolved, resolved[q].value) {
        assert ReferencesNamed(final, final[q].value);
      }
    }
  }

  // planOntologyEntries: an accepted patch gives the plan its entries say, and what the compiler asks for; where
  // renames are clean, it gives one exactly when the entries make one.
  method PlanOntologyEntries(base: Snapshot, codec: Codec, entries: seq<Entry>)
      returns (r: Result<Plan>, moves: IR.Moves, ghost m: Made)
    requires WellNamed(ObjectsOf(base)) && NamedProperties(ObjectsOf(base)) && SoundCodec(codec)
    requires forall i {:trigger entries[i]} :: 0 <= i < |entries| ==> WellFormedEntry(entries[i])
    ensures r.Success? ==> r.value.base == base && ValidPlan(r.value) && PlanMade(codec, entries, r.value, m) && moves == MovesOf(m)
    ensures CameTo(codec, ObjectsOf(base), entries, m)
    ensures !Accepted(codec, ObjectsOf(base), entries) ==> r.Failure?
    ensures Accepted(codec, ObjectsOf(base), entries) && Clean(m.transitions) ==> (r.Success? <==> Plannable(ObjectsOf(base), m))
  {
    moves := IR.Unmoving;
    m := Made(map[], map[], map[], map[], map[], map[], map[], map[], map[]);
    var baseObjects := map q | q in base.records :: ValueOf(base.records[q]);
    assert baseObjects == ObjectsOf(base);
    var applied := ApplyEntries(baseObjects, codec, entries);
    if applied.Failure? {
      return Failure(applied.code), moves, m;
    }
    var (objects, aliases, transitions, deltas) := applied.value;
    m := Made(objects, aliases, transitions, deltas, map[], map[], map[], map[], map[]);
    BasesNamed(codec, baseObjects, entries, Progress(objects, aliases, transitions));
    var derived := ResolveDerivedReferences(baseObjects, objects, aliases, transitions);
    if derived.Failure? {
      return Failure(derived.code), moves, m;
    }
    var (resolved, renames) := derived.value;
    moves := IR.Moves(aliases, transitions, renames);
    RecordedNamed(ChangesMade(codec, baseObjects, entries), |entries|, deltas);
    var final, rebuilt, gathered, moved, settled := FinishObjects(baseObjects, resolved, moves, deltas);
    m := Made(objects, aliases, transitions, deltas, resolved, renames, gathered, moved, settled);
    if final.Failure? {
      return Failure(final.code), moves, m;
    }
    AllFinalNamed(resolved, rebuilt, final.value, settled);
    var named := ValidateReferences(final.value);
    if !named {
      return Failure(ObjectConflict), moves, m;
    }
    FinishedPlan(codec, base, entries, m, rebuilt, final.value);
    return Success(Plan(base, final.value)), moves, m;
  }

  lemma FinishedPlan(c: Codec, base: Snapshot, entries: seq<Entry>, m: Made, rebuilt: Objects, final: PlannedObjects)
    requires WellNamed(ObjectsOf(base)) && Accepted(c, ObjectsOf(base), entries)
    requires Accounted(c, ObjectsOf(base), entries, |entries|, Progress(m.before, m.aliases, m.transitions))
    requires Recorded(ChangesMade(c, ObjectsOf(base), entries), |entries|, m.deltas)
    requires m.before.Keys == m.resolved.Keys && AllResolved(ObjectsOf(base), m.aliases, m.transitions, m.before, m.resolved, m.renames)
    requires IX.Settles(ObjectsOf(base), Values(m.resolved), MovesOf(m), m.deltas, m.gathered, m.moved, m.settled)
    requires IX.Shown(Values(m.resolved), rebuilt, m.settled, m.settled.Keys) && FinalOf(m.resolved, rebuilt, final) && IX.Projected(Values(final), m.settled)
    requires forall r {:trigger final[r]} :: r in final ==> ReferencesNamed(final, final[r].value)
    ensures ValidPlan(Plan(base, final)) && PlanMade(c, entries, Plan(base, final), m)
  {
    RenamesApart(c, ObjectsOf(base), entries, Progress(m.before, m.aliases, m.transitions));
    ObjectsMade(ObjectsOf(base), m, rebuilt, final);
    AllSettled(c, ObjectsOf(base), entries, m, final);
    SettledPlanValid(c, entries, base, m.before, m.aliases, m.transitions, final);
    assert CompilerFacts.Planned(Plan(base, final)) == Values(final);
  }

  // Entries never rename two objects to one Ref; so without chains the renames are clean.
  lemma RenamesApart(codec: Codec, base: Objects, entries: seq<Entry>, p: Progress)
    requires Accounted(codec, base, entries, |entries|, p)
    ensures Unchained(p.transitions) ==> Clean(p.transitions)
    ensures forall a :: a in p.transitions ==> p.transitions[a] in p.objects && p.objects[p.transitions[a]].baseRef == Some(a)
  {
    forall a | a in p.transitions ensures p.transitions[a] in p.objects && p.objects[p.transitions[a]].baseRef == Some(a) {
      AtTransition(codec, base, entries, |entries|, p, a);
      EditedAt(codec, base, entries, |entries|, p, a);
    }
  }

  // No rename source is a planned Ref: then there are no chains.
  lemma GoneSourcesAreClean(codec: Codec, base: Objects, entries: seq<Entry>, p: Progress)
    requires Accounted(codec, base, entries, |entries|, p)
    requires forall a :: a in p.transitions ==> a !in p.objects
    ensures Clean(p.transitions)
  {
    RenamesApart(codec, base, entries, p);
  }

  // ----- names that are not used again

  // The plan has no object under the name of a renamed one and no Property under the name of a renamed one.
  ghost predicate FreshNames(plan: Plan, m: Made) {
    && (forall a :: a in m.transitions ==> a !in plan.objects)
    && (forall q, s :: q in m.renames && s in m.renames[q] && q in plan.objects && plan.objects[q].value.DefinitionValue? ==>
          s !in PropertyNames(plan.objects[q].value.definition.properties))
  }

  lemma FreshInResolved(base: Objects, m: Made, q: Ref, final: PlannedObject, s: string)
    requires ObjectMade(base, m, q, final) && final.value.DefinitionValue? && s !in PropertyNames(final.value.definition.properties)
    ensures m.resolved[q].value.DefinitionValue? && FindProperty(m.resolved[q].value.definition.properties, s).None?
  {
    var a, b := m.resolved[q].value.definition.properties, final.value.definition.properties;
    forall p | p in a ensures p.name != s {
      InBare(a, p.(indexes := []));
      InBare(b, p.(indexes := []));
    }
  }

  // Then the indexes that the compiler gathers from the plan are exactly those the plan settled.
  lemma FreshNamesBack(c: Codec, entries: seq<Entry>, plan: Plan, m: Made, r: Result<IE.Indexes>)
    requires PlanMade(c, entries, plan, m) && FreshNames(plan, m) && IR.Collected(CompilerFacts.Planned(plan), MovesOf(m), r)
    ensures r == Success(IX.Canons(m.settled))
  {
    forall t, p {:trigger IP.Renames(MovesOf(m), t, p)} | t in Values(m.resolved) && Values(m.resolved)[t].DefinitionValue? && IP.Renames(MovesOf(m), t, p)
      ensures FindProperty(Values(m.resolved)[t].definition.properties, p).None?
    {
      assert ObjectMade(ObjectsOf(plan.base), m, t, plan.objects[t]);
      FreshInResolved(ObjectsOf(plan.base), m, t, plan.objects[t], p);
    }
    IX.FreshNamesUnused(ObjectsOf(plan.base), Values(m.resolved), MovesOf(m), m.deltas, m.gathered, m.moved, m.settled);
    IX.UnusedNamesComeBack(CompilerFacts.Planned(plan), m.settled, MovesOf(m), r);
  }

  // A planned patch and the indexes the compiler gathers from it.
  method PlanIndexes(base: Snapshot, codec: Codec, entries: seq<Entry>)
      returns (r: Result<(Plan, Result<IE.Indexes>)>, ghost m: Made)
    requires WellNamed(ObjectsOf(base)) && NamedProperties(ObjectsOf(base)) && SoundCodec(codec)
    requires forall i {:trigger entries[i]} :: 0 <= i < |entries| ==> WellFormedEntry(entries[i])
    ensures r.Success? ==> r.value.0.base == base && PlanMade(codec, entries, r.value.0, m)
    ensures r.Success? ==> (IX.Back(m.settled, r.value.1) <==> IX.AllUnmoved(MovesOf(m), m.settled))
    ensures r.Success? && FreshNames(r.value.0, m) ==> r.value.1 == Success(IX.Canons(m.settled))
  {
    var planned, moves, made := PlanOntologyEntries(base, codec, entries);
    m := made;
    if planned.Failure? {
      return Failure(planned.code), m;
    }
    var values := map q | q in planned.value.objects :: planned.value.objects[q].value;
    assert values == CompilerFacts.Planned(planned.value);
    var indexes := IR.CollectIndexes(values, moves);
    IX.RoundTrip(values, m.settled, moves, indexes);
    if FreshNames(planned.value, m) {
      FreshNamesBack(codec, entries, planned.value, m, indexes);
    }
    return Success((planned.value, indexes)), m;
  }
}

// From the text of a Patch to the decoded result.
module Pipeline {
  import opened Outcomes
  import opened Model
  import opened BindingGraph
  import opened CompilerFacts
  import opened Compiler
  import opened PatchPaths
  import opened GitPatch
  import opened EntryPlan
  import opened ReferencePlan
  import opened PatchPlan
  import IR = IndexReading

  // Whether there is a plan: never for a text or entries that are refused, and where renames are clean exactly when
  // the entries make one.
  ghost predicate PlanKnown(codec: Codec, text: string, unquote: Unquote, base: Snapshot, planned: bool, m: Made) {
    if PatchFrom(text, unquote).Failure? then !planned
    else
      var entries := PatchFrom(text, unquote).value;
      && CameTo(codec, ObjectsOf(base), entries, m)
      && (!Accepted(codec, ObjectsOf(base), entries) ==> !planned)
      && (Accepted(codec, ObjectsOf(base), entries) && Clean(m.transitions) ==> (planned <==> Plannable(ObjectsOf(base), m)))
  }

  lemma PlannedFromText(text: string, unquote: Unquote)
    requires PatchFrom(text, unquote).Success?
    ensures forall i {:trigger PatchFrom(text, unquote).value[i]} :: 0 <= i < |PatchFrom(text, unquote).value| ==> WellFormedEntry(PatchFrom(text, unquote).value[i])
  {
    AcceptedIsWellFormed(text, unquote);
  }

  // Parsing and planning: the plan, its moves, and what it was made of.
  method PlanPatch(base: Snapshot, text: string, codec: Codec, unquote: Unquote) returns (r: Result<(Plan, IR.Moves)>, ghost m: Made)
    requires WellNamed(ObjectsOf(base)) && NamedProperties(ObjectsOf(base)) && SoundCodec(codec)
    ensures r.Success? ==>
              && PatchFrom(text, unquote).Success? && r.value.0.base == base && ValidPlan(r.value.0)
              && PlanMade(codec, PatchFrom(text, unquote).value, r.value.0, m) && r.value.1 == MovesOf(m)
    ensures PlanKnown(codec, text, unquote, base, r.Success?, m)
  {
    m := Made(map[], map[], map[], map[], map[], map[], map[], map[], map[]);
    var entries := ParseGitPatch(text, unquote);
    if entries.Failure? {
      return Failure(entries.code), m;
    }
    PlannedFromText(text, unquote);
    var planned, moves, made := PlanOntologyEntries(base, codec, entries.value);
    if planned.Failure? {
      return Failure(planned.code), made;
    }
    return Success((planned.value, moves)), made;
  }

  // Parsing, planning, writing the internal graph and decoding it again: it succeeds when there is a plan, the
  // decoded objects are the planned ones, the plan is what the entries in the text say, and nodes and unchanged
  // edges keep their identities.
  method ApplyOntologyPatch(g: InternalGraph, base: Snapshot, text: string, codec: Codec, unquote: Unquote, ghost schema: Schema, ghost baseIds: Ids)
      returns (r: Result<Snapshot>, ghost plan: Plan, ghost m: Made, ghost ids: Ids)
    requires g.Valid() && Decodes(schema, g.nodes, g.edges, base, baseIds)
    requires NamedProperties(ObjectsOf(base)) && SoundCodec(codec)
    modifies g
    ensures r.Success? ==>
              && PatchFrom(text, unquote).Success? && plan.base == base && ValidPlan(plan)
              && PlanMade(codec, PatchFrom(text, unquote).value, plan, m)
              && g.Valid() && Complete(Planned(plan), ids)
              && r.value == Target(Planned(plan), ids, g.edges) && ObjectsOf(r.value) == Planned(plan)
              && NodesContinue(plan, baseIds, ids, old(g.nextId))
              && EdgesContinue(old(g.edges), g.edges, Planned(plan), ids, old(g.nextId))
    ensures PlanKnown(codec, text, unquote, base, r.Success?, m)
    ensures r.Failure? ==> g.nodes == old(g.nodes) && g.edges == old(g.edges)
  {
    plan, ids := Plan(base, map[]), map[];
    var planned, made := PlanPatch(base, text, codec, unquote);
    m := made;
    if planned.Failure? {
      return Failure(planned.code), plan, m, ids;
    }
    plan := planned.value.0;
    var decoded, given := CompileAndDecode(g, planned.value.0, schema, baseIds);
    ids := given;
    return decoded, plan, m, ids;
  }
}
