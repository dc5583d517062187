// One patch as one transaction (internal/kernel/patch_execute.go): schema, Knowledge data and internal graph
// are staged together and committed together, or not at all.

module PatchTransaction {
  import opened Outcomes
  import opened Model
  import opened BindingGraph
  import opened DecoderFacts
  import opened CompilerFacts
  import opened Compiler
  import opened PatchPaths
  import opened GitPatch
  import opened EntryPlan
  import EP = EntryPlan
  import opened ReferencePlan
  import opened PatchPlan
  import opened Pipeline
  import opened RenameFacts
  import opened RenameFates
  import opened RenameSafety
  import opened NodeOverlaps
  import opened RenameGaps
  import opened SafeOverlaps
  import opened SchemaMigration
  import SM = SchemaMigration
  import IE = IndexEntries
  import IR = IndexReading
  import IX = IndexRoundTrip
  import RM = RenameMaintenance

  // What a State holds: the internal graph, the Knowledge data, the catalogue.
  datatype Stored = Stored(
    nodes: map<Id, Node>, edges: map<Id, Edge>, nextId: Id,
    dataNodes: map<nat, DataNode>, dataEdges: map<nat, DataEdge>, nextData: nat,
    constraints: Constraints, indexes: IE.Indexes)

  ghost predicate Sound(s: Stored) {
    && (forall id :: id in s.nodes ==> id < s.nextId)
    && (forall i :: i in s.edges ==> i < s.nextId && s.edges[i].start < s.nextId && s.edges[i].end < s.nextId)
    && (forall i :: i in s.dataEdges ==> i < s.nextData)
    && s.constraints.Keys !! s.indexes.Keys
  }

  // The catalogue holds the indexes that the State's Definitions declare.
  ghost predicate Catalogued(base: Snapshot, s: Stored) {
    forall m {:trigger IR.Collected(ObjectsOf(base), IR.Unmoving, Success(m))} ::
      IR.Collected(ObjectsOf(base), IR.Unmoving, Success(m)) ==> m == s.indexes
  }

  // What the planned Definitions ask of constraints; validateDerivedResourceMaintenance's verdict on the plan.
  datatype Constrained = Constrained(target: Constraints, unique: set<(Ref, string)>, maintained: bool)

  class Database {
    var stored: Stored
    const defaults: string
    const readable: string -> bool

    constructor (stored: Stored, defaults: string, readable: string -> bool)
      ensures this.stored == stored && this.defaults == defaults && this.readable == readable
    {
      this.stored, this.defaults, this.readable := stored, defaults, readable;
    }
  }

  // ----- checks before the transaction

  // The Definition has the Property, and a search index covers text only.
  ghost predicate Offers(definition: Definition, kind: string, name: string) {
    exists p :: p in definition.properties && p.name == name && FindProperty(definition.properties, name) == Some(p)
                && (kind == "fulltext" || kind == "vector" ==> p.kind == "STRING")
  }

  ghost predicate OneTargetFits(objects: Objects, index: IE.Logical, t: Ref)
    requires index.targets != []
  {
    && t.kind == index.targets[0].kind && t in objects && objects[t].DefinitionValue?
    && forall i {:trigger index.properties[i]} :: 0 <= i < |index.properties| ==> Offers(objects[t].definition, index.kind, index.properties[i])
  }

  // The index covers Definitions of one kind that have its Properties; only search indexes cover several, and a
  // Semantic Index has one Property.
  ghost predicate TargetFits(objects: Objects, index: IE.Logical) {
    && index.targets != []
    && (forall k {:trigger index.targets[k]} :: 0 <= k < |index.targets| ==> OneTargetFits(objects, index, index.targets[k]))
    && (index.kind == "range" || index.kind == "text" || index.kind == "point" ==> |index.targets| == 1)
    && (index.kind == "vector" ==> |index.properties| == 1)
  }

  method ValidateTarget(objects: Objects, index: IE.Logical, t: Ref) returns (ok: bool)
    requires index.targets != []
    ensures ok <==> OneTargetFits(objects, index, t)
  {
    if t.kind != index.targets[0].kind || t !in objects || objects[t].DomainValue? {
      return false;
    }
    var properties := objects[t].definition.properties;
    var i := 0;
    while i < |index.properties|
      invariant 0 <= i <= |index.properties|
      invariant forall j {:trigger index.properties[j]} :: 0 <= j < i ==> Offers(objects[t].definition, index.kind, index.properties[j])
    {
      var stored := FindProperty(properties, index.properties[i]);
      if stored.None? {
        return false;
      }
      if (index.kind == "fulltext" || index.kind == "vector") && stored.value.kind != "STRING" {
        return false;
      }
      i := i + 1;
    }
    return true;
  }

  method ValidateTargetIndex(objects: Objects, index: IE.Logical) returns (ok: bool)
    ensures ok <==> TargetFits(objects, index)
  {
    if |index.targets| == 0 {
      return false;
    }
    var k := 0;
    while k < |index.targets|
      invariant 0 <= k <= |index.targets|
      invariant forall i {:trigger index.targets[i]} :: 0 <= i < k ==> OneTargetFits(objects, index, index.targets[i])
    {
      var fits := ValidateTarget(objects, index, index.targets[k]);
      if !fits {
        return false;
      }
      k := k + 1;
    }
    if (index.kind == "range" || index.kind == "text" || index.kind == "point") && |index.targets| != 1 {
      return false;
    }
    return !(index.kind == "vector" && |index.properties| != 1);
  }

  // validateTargetIndexes.
  method ValidateTargetIndexes(objects: Objects, indexes: IE.Indexes) returns (ok: bool)
    ensures ok <==> forall name {:trigger indexes[name]} :: name in indexes ==> TargetFits(objects, indexes[name])
  {
    var names := indexes.Keys;
    while names != {}
      invariant names <= indexes.Keys
      invariant forall name {:trigger indexes[name]} :: name in indexes && name !in names ==> TargetFits(objects, indexes[name])
      decreases |names|
    {
      var name :| name in names;
      var fits := ValidateTargetIndex(objects, indexes[name]);
      if !fits {
        return false;
      }
      names := names - {name};
    }
    return true;
  }

  // isNoOp: nothing is renamed or added and every object is as it was.
  ghost predicate NoOp(base: Snapshot, plan: Plan, moves: IR.Moves) {
    moves == IR.Unmoving && Planned(plan) == ObjectsOf(base)
  }

  // ----- what a plan is to the data

  lemma UntouchedContinuesOnce(ref: Ref, value: Value)
    ensures ContinuedOnce(EP.Untouched(ref, value).propertyBase) && ContinuedOnce(Added(value).propertyBase)
  {
  }

  lemma BeforeContinuesOnce(c: Codec, base: Objects, entries: seq<Entry>, p: Progress, q: Ref)
    requires Accounted(c, base, entries, |entries|, p) && q in p.objects
    ensures ContinuedOnce(p.objects[q].propertyBase)
  {
    AtObject(c, base, entries, |entries|, p, q);
    if p.objects[q].baseRef.Some? {
      var b := p.objects[q].baseRef.value;
      AtBase(c, base, entries, |entries|, p, b);
      UntouchedContinuesOnce(b, base[b]);
    } else {
      var i :| 0 <= i < |entries| && Adds(c, entries[i], q, p.objects[q]);
      UntouchedContinuesOnce(q, AddedValue(c, entries[i]).value);
    }
  }

  lemma ResolvedContinuesOnce(base: Objects, before: PlannedObject, after: PlannedObject, renames: map<string, string>)
    requires ResolvedFrom(base, before, after, renames) && ContinuedOnce(before.propertyBase)
    ensures ContinuedOnce(after.propertyBase)
  {
  }

  lemma MadeContinuesOnce(c: Codec, entries: seq<Entry>, plan: Plan, m: Made, q: Ref)
    requires PlanMade(c, entries, plan, m) && q in plan.objects
    ensures ContinuedOnce(plan.objects[q].propertyBase)
  {
    var base := ObjectsOf(plan.base);
    assert ObjectMade(base, m, q, plan.objects[q]);
    BeforeContinuesOnce(c, base, entries, Progress(m.before, m.aliases, m.transitions), q);
    ResolvedContinuesOnce(base, m.before[q], m.resolved[q], RenamesFor(m.renames, q));
  }

  lemma OneEach(plan: Plan, a: Ref, b: Ref)
    requires ClaimsApart(plan) && a in plan.objects && b in plan.objects && a != b && plan.objects[a].baseRef.Some?
    ensures plan.objects[a].baseRef != plan.objects[b].baseRef
  {
    assert Kept(plan, Obj(a)) && Claim(plan, Obj(a)) == Some(Obj(plan.objects[a].baseRef.value));
    if plan.objects[b].baseRef.Some? {
      assert Kept(plan, Obj(b)) && Claim(plan, Obj(b)) == Some(Obj(plan.objects[b].baseRef.value));
    }
  }

  lemma MadeBasesApart(c: Codec, entries: seq<Entry>, plan: Plan, m: Made)
    requires PlanMade(c, entries, plan, m) && ValidPlan(plan)
    ensures RM.BasesApart(plan)
  {
    forall a, b | a in plan.objects && b in plan.objects && a != b && plan.objects[a].baseRef.Some?
      ensures plan.objects[a].baseRef != plan.objects[b].baseRef
    {
      OneEach(plan, a, b);
    }
    forall r | r in plan.objects ensures ContinuedOnce(plan.objects[r].propertyBase) {
      MadeContinuesOnce(c, entries, plan, m, r);
    }
  }

  lemma ContinuityUnique(plan: Plan, a: map<Ref, Ref>, b: map<Ref, Ref>)
    requires RM.Continues(plan, a) && RM.Continues(plan, b)
    ensures a == b
  {
    forall r | r in a ensures r in b && b[r] == a[r] {
      assert plan.objects[a[r]].baseRef == Some(r);
    }
    forall r | r in b ensures r in a {
      assert plan.objects[b[r]].baseRef == Some(r);
    }
  }

  // ----- what a committed patch is

  datatype Done = Done(
    planned: bool, plan: Plan, made: Made, ids: Ids, continuity: map<Ref, Ref>, refs: seq<Ref>, changes: seq<Change>, origin: map<nat, nat>,
    targetIndexes: IE.Indexes)

  // The internal graph says the plan, and identities survive.
  ghost predicate GraphDone(before: Stored, after: Stored, baseIds: Ids, decoded: Snapshot, w: Done) {
    && Complete(Planned(w.plan), w.ids) && decoded == Target(Planned(w.plan), w.ids, after.edges) && ObjectsOf(decoded) == Planned(w.plan)
    && NodesContinue(w.plan, baseIds, w.ids, before.nextId)
    && EdgesContinue(before.edges, after.edges, Planned(w.plan), w.ids, before.nextId)
    && Decodes(TargetSchema(Planned(w.plan)), after.nodes, after.edges, decoded, w.ids)
  }

  // The data passed the check, and every node and relationship has met its fate under the plan's changes.
  ghost predicate DataDone(before: Stored, after: Stored, w: Done) {
    && PlanChanges(w.plan, w.continuity, w.refs, w.changes) && ValidChanges(w.changes)
    && SafeData(Data(before.dataNodes, before.dataEdges), w.plan, w.continuity)
    && after.dataNodes == RM.NodeFates(before.dataNodes, w.changes)
    && RM.StandsFor(after.dataEdges, w.origin, RM.EdgeFates(before.dataEdges, w.changes))
  }

  // The catalogue holds the target.
  ghost predicate CatalogueDone(before: Stored, after: Stored, defaults: string, target: Constraints, w: Done) {
    && IR.Collected(Planned(w.plan), MovesOf(w.made), Success(w.targetIndexes)) && AllFit(w)
    && SM.Reached(defaults, before.constraints, before.indexes, target, w.targetIndexes, after.constraints, after.indexes)
  }

  ghost predicate PlanDone(codec: Codec, text: string, unquote: Unquote, base: Snapshot, w: Done) {
    PatchFrom(text, unquote).Success? && w.plan.base == base && ValidPlan(w.plan) && PlanMade(codec, PatchFrom(text, unquote).value, w.plan, w.made)
  }

  ghost predicate AllFit(w: Done) {
    forall name {:trigger w.targetIndexes[name]} :: name in w.targetIndexes ==> TargetFits(Planned(w.plan), w.targetIndexes[name])
  }

  // What the steps after planning are asked about.
  ghost predicate Prepared(base: Snapshot, w: Done) {
    && RM.Continues(w.plan, w.continuity)
    && (!NoOp(base, w.plan, MovesOf(w.made)) && !IR.Disagreement(Planned(w.plan), MovesOf(w.made)) ==>
         IR.Collected(Planned(w.plan), MovesOf(w.made), Success(w.targetIndexes)))
  }

  // The planned Definitions agree on their indexes, each index fits what it covers, constraints are maintained, the
  // data allows the renames, and the catalogue takes the target.
  ghost predicate Executable(before: Stored, readable: string -> bool, asked: Constrained, w: Done) {
    && !IR.Disagreement(Planned(w.plan), MovesOf(w.made)) && asked.maintained && AllFit(w)
    && SafeData(Data(before.dataNodes, before.dataEdges), w.plan, w.continuity)
    && Coexist(asked.target, asked.unique, w.targetIndexes)
    && Statements(readable, before.constraints, before.indexes, asked.target, w.targetIndexes)
  }

  // Every step goes through; or there is nothing to do.
  ghost predicate GoesThrough(before: Stored, base: Snapshot, readable: string -> bool, asked: Constrained, w: Done) {
    w.planned && (NoOp(base, w.plan, MovesOf(w.made)) || Executable(before, readable, asked, w))
  }

  // All three parts of what a commit does.
  ghost predicate AllDone(before: Stored, after: Stored, baseIds: Ids, decoded: Snapshot, defaults: string, target: Constraints, w: Done) {
    GraphDone(before, after, baseIds, decoded, w) && DataDone(before, after, w) && CatalogueDone(before, after, defaults, target, w)
  }

  // A commit did them all, or nothing was to be done.
  ghost predicate Committed(before: Stored, after: Stored, baseIds: Ids, base: Snapshot, decoded: Snapshot, defaults: string, target: Constraints, w: Done) {
    if NoOp(base, w.plan, MovesOf(w.made)) then after == before && decoded == base
    else AllDone(before, after, baseIds, decoded, defaults, target, w)
  }

  // ----- the transaction

  // The Knowledge steps on a staged copy.
  method StageData(before: Stored, plan: Plan, ghost codec: Codec, ghost entries: seq<Entry>, ghost m: Made)
      returns (staged: Option<StagedKnowledge>, ghost continuity: map<Ref, Ref>, ghost refs: seq<Ref>, ghost changes: seq<Change>, ghost origin: map<nat, nat>)
    requires Sound(before) && ValidPlan(plan) && PlanMade(codec, entries, plan, m) && WellNamed(ObjectsOf(plan.base))
    ensures RM.Continues(plan, continuity)
    ensures staged.Some? <==> SafeData(Data(before.dataNodes, before.dataEdges), plan, continuity)
    ensures staged.Some? ==>
              && PlanChanges(plan, continuity, refs, changes) && ValidChanges(changes)
              && staged.value.nodes == RM.NodeFates(before.dataNodes, changes)
              && RM.StandsFor(staged.value.edges, origin, RM.EdgeFates(before.dataEdges, changes))
              && forall i :: i in staged.value.edges ==> i < staged.value.nextData
  {
    MadeBasesApart(codec, entries, plan, m);
    var continuing := RM.ContinuityByBaseRef(plan);
    continuity, refs, changes, origin := continuing, [], [], map[];
    var safe := ValidateStagedDataSafety(Data(before.dataNodes, before.dataEdges), plan, continuing);
    if safe.Failure? {
      return None, continuity, refs, changes, origin;
    }
    var g := new RM.StagedData(before.dataNodes, before.dataEdges, before.nextData);
    ghost var made, stands := RM.MaintainKnowledge(g, plan);
    ghost var other, listed :| RM.Continues(plan, other) && RM.ChangesOf(plan, other, listed, made);
    ContinuityUnique(plan, other, continuing);
    refs, changes, origin := listed, made, stands;
    return Some(StagedKnowledge(g.nodes, g.edges, g.nextId)), continuity, refs, changes, origin;
  }

  datatype StagedKnowledge = StagedKnowledge(nodes: map<nat, DataNode>, edges: map<nat, DataEdge>, nextData: nat)

  datatype StagedState = StagedState(data: StagedKnowledge, constraints: Constraints, indexes: IE.Indexes)

  // The staged data and catalogue are what the plan makes of them.
  ghost predicate StagedDone(before: Stored, staged: StagedState, defaults: string, target: Constraints, w: Done) {
    && PlanChanges(w.plan, w.continuity, w.refs, w.changes) && ValidChanges(w.changes)
    && staged.data.nodes == RM.NodeFates(before.dataNodes, w.changes)
    && RM.StandsFor(staged.data.edges, w.origin, RM.EdgeFates(before.dataEdges, w.changes))
    && (forall i :: i in staged.data.edges ==> i < staged.data.nextData)
    && target.Keys !! w.targetIndexes.Keys
    && SM.Reached(defaults, before.constraints, before.indexes, target, w.targetIndexes, staged.constraints, staged.indexes)
  }

  // The schema steps on a staged copy; the Knowledge steps between them touch no name of the catalogue.
  method StageSchema(before: Stored, baseIndexes: IE.Indexes, defaults: string, readable: string -> bool, target: Constraints,
                     unique: set<(Ref, string)>, targetIndexes: IE.Indexes)
      returns (staged: Option<(Constraints, IE.Indexes)>)
    requires Sound(before) && baseIndexes == before.indexes
    ensures staged.Some? <==>
              && Coexist(target, unique, targetIndexes)
              && Statements(readable, before.constraints, before.indexes, target, targetIndexes)
    ensures staged.Some? ==>
              && target.Keys !! targetIndexes.Keys
              && SM.Reached(defaults, before.constraints, before.indexes, target, targetIndexes, staged.value.0, staged.value.1)
  {
    var tx := new SchemaTransaction(before.constraints, before.indexes, defaults, readable);
    var ok := ApplySchema(tx, unique, before.constraints, baseIndexes, target, targetIndexes);
    if !ok {
      return None;
    }
    return Some((tx.constraints, tx.indexes));
  }

  function PlannedObjectsOf(plan: Plan): Objects {
    map r | r in plan.objects :: plan.objects[r].value
  }

  lemma ContinuityExists(plan: Plan) returns (continuity: map<Ref, Ref>)
    requires RM.BasesApart(plan)
    ensures RM.Continues(plan, continuity)
  {
    var bases := set q | q in plan.objects && plan.objects[q].baseRef.Some? :: plan.objects[q].baseRef.value;
    continuity := map b | b in bases :: var q :| q in plan.objects && plan.objects[q].baseRef == Some(b); q;
  }

  lemma BaseAgrees(codec: Codec, entries: seq<Entry>, plan: Plan, m: Made)
    requires PlanMade(codec, entries, plan, m)
    ensures !IR.Disagreement(ObjectsOf(plan.base), IR.Unmoving)
  {
    assert IR.Collected(ObjectsOf(plan.base), IR.Unmoving, Success(m.gathered));
  }

  // The steps up to the transaction: the indexes of the target, and whether they are allowed.
  method PrepareIndexes(before: Stored, base: Snapshot, plan: Plan, moves: IR.Moves, asked: Constrained,
                        ghost codec: Codec, ghost entries: seq<Entry>, ghost start: Done)
      returns (r: Option<(IE.Indexes, IE.Indexes)>, ghost w: Done)
    requires Catalogued(base, before) && plan.base == base && PlanMade(codec, entries, plan, start.made) && moves == MovesOf(start.made)
    requires start.plan == plan && RM.Continues(plan, start.continuity)
    ensures w == start.(targetIndexes := w.targetIndexes) && Prepared(base, w)
    ensures r.Some? <==> !IR.Disagreement(Planned(plan), moves) && asked.maintained && AllFit(w)
    ensures r.Some? ==> r.value.0 == before.indexes && r.value.1 == w.targetIndexes
  {
    w := start;
    BaseAgrees(codec, entries, plan, start.made);
    var objects := PlannedObjectsOf(plan);
    assert objects == Planned(plan);
    var baseIndexes := IR.CollectIndexes(ObjectsOf(base), IR.Unmoving);
    var targetIndexes := IR.CollectIndexes(objects, moves);
    if baseIndexes.Failure? || targetIndexes.Failure? {
      return None, w;
    }
    w := w.(targetIndexes := targetIndexes.value);
    if !asked.maintained {
      return None, w;
    }
    var fits := ValidateTargetIndexes(objects, targetIndexes.value);
    if !fits {
      return None, w;
    }
    return Some((baseIndexes.value, targetIndexes.value)), w;
  }

  // All staged steps, on a plan that is not a no-op.
  method Stage(before: Stored, base: Snapshot, defaults: string, readable: string -> bool, plan: Plan, moves: IR.Moves, asked: Constrained,
               ghost codec: Codec, ghost entries: seq<Entry>, ghost start: Done)
      returns (staged: Option<StagedState>, ghost w: Done)
    requires Sound(before) && ValidPlan(plan) && PlanMade(codec, entries, plan, start.made) && moves == MovesOf(start.made)
    requires plan.base == base && WellNamed(ObjectsOf(base)) && start.plan == plan && start.planned && RM.Continues(plan, start.continuity)
    requires Catalogued(base, before)
    ensures w.planned && w.plan == plan && w.made == start.made && w.ids == start.ids && Prepared(base, w)
    ensures staged.Some? <==> Executable(before, readable, asked, w)
    ensures staged.Some? ==> StagedDone(before, staged.value, defaults, asked.target, w)
  {
    staged := None;
    var indexes;
    indexes, w := PrepareIndexes(before, base, plan, moves, asked, codec, entries, start);
    if indexes.None? {
      return;
    }
    var data, continuity, refs, changes, origin := StageData(before, plan, codec, entries, start.made);
    ContinuityUnique(plan, continuity, start.continuity);
    w := w.(refs := refs, changes := changes, origin := origin);
    if data.None? {
      return;
    }
    var (baseIndexes, targetIndexes) := indexes.value;
    var schemaStaged := StageSchema(before, baseIndexes, defaults, readable, asked.target, asked.unique, targetIndexes);
    if schemaStaged.None? {
      return;
    }
    staged := Some(StagedState(data.value, schemaStaged.value.0, schemaStaged.value.1));
  }

  // The plan, if there is one, and what it continues.
  method PreparePlan(base: Snapshot, text: string, codec: Codec, unquote: Unquote) returns (r: Result<(Plan, IR.Moves)>, ghost w: Done)
    requires WellFormed(ObjectsOf(base)) && NamedProperties(ObjectsOf(base)) && SoundCodec(codec)
    ensures PlanKnown(codec, text, unquote, base, w.planned, w.made) && w.planned == r.Success?
    ensures r.Success? ==>
              && PlanDone(codec, text, unquote, base, w) && RM.Continues(w.plan, w.continuity)
              && r.value.0 == w.plan && r.value.1 == MovesOf(w.made)
  {
    var planned, m := PlanPatch(base, text, codec, unquote);
    r := planned;
    w := Done(false, Plan(base, map[]), m, map[], map[], [], [], map[], map[]);
    if planned.Success? {
      MadeBasesApart(codec, PatchFrom(text, unquote).value, planned.value.0, m);
      var continuity := ContinuityExists(planned.value.0);
      w := Done(true, planned.value.0, m, map[], continuity, [], [], map[], map[]);
    }
  }

  // The internal graph of the plan, and all three parts together.
  method CommitStaged(before: Stored, base: Snapshot, plan: Plan, staged: StagedState, ghost schema: Schema, ghost baseIds: Ids,
                      ghost defaults: string, ghost target: Constraints, ghost w: Done)
      returns (decoded: Result<Snapshot>, after: Stored, ghost done: Done)
    requires Sound(before) && Decodes(schema, before.nodes, before.edges, base, baseIds) && ValidPlan(plan) && plan.base == base && w.plan == plan
    requires StagedDone(before, staged, defaults, target, w) && SafeData(Data(before.dataNodes, before.dataEdges), plan, w.continuity)
    requires IR.Collected(Planned(plan), MovesOf(w.made), Success(w.targetIndexes)) && AllFit(w)
    ensures decoded.Success? && done == w.(ids := done.ids) && Sound(after)
    ensures AllDone(before, after, baseIds, decoded.value, defaults, target, done)
  {
    var g := new InternalGraph(before.nodes, before.edges, before.nextId);
    ghost var ids;
    decoded, ids := CompileAndDecode(g, plan, schema, baseIds);
    var data := staged.data;
    after := Stored(g.nodes, g.edges, g.nextId, data.nodes, data.edges, data.nextData, staged.constraints, staged.indexes);
    done := w.(ids := ids);
  }

  lemma SameButIds(before: Stored, base: Snapshot, readable: string -> bool, asked: Constrained, a: Done, b: Done)
    requires b == a.(ids := b.ids) && Executable(before, readable, asked, a) && Prepared(base, a)
    ensures Executable(before, readable, asked, b) && Prepared(base, b)
  {
  }

  method IsNoOp(base: Snapshot, plan: Plan, moves: IR.Moves) returns (idle: bool)
    ensures idle == NoOp(base, plan, moves)
  {
    assert PlannedObjectsOf(plan) == Planned(plan);
    return moves == IR.Unmoving && PlannedObjectsOf(plan) == ObjectsOf(base);
  }

  // The steps of the transaction, in order; any of them may refuse.
  method ExecutePlan(before: Stored, base: Snapshot, defaults: string, readable: string -> bool, plan: Plan, moves: IR.Moves, asked: Constrained,
                     ghost codec: Codec, ghost entries: seq<Entry>, ghost schema: Schema, ghost baseIds: Ids, ghost start: Done)
      returns (r: Result<Snapshot>, after: Stored, ghost w: Done)
    requires Sound(before) && Catalogued(base, before) && Decodes(schema, before.nodes, before.edges, base, baseIds)
    requires ValidPlan(plan) && PlanMade(codec, entries, plan, start.made) && moves == MovesOf(start.made)
    requires plan.base == base && start.plan == plan && start.planned && RM.Continues(plan, start.continuity) && !NoOp(base, plan, moves)
    ensures w.planned && w.plan == plan && w.made == start.made && Prepared(base, w)
    ensures r.Success? <==> Executable(before, readable, asked, w)
    ensures r.Success? ==> Sound(after) && AllDone(before, after, baseIds, r.value, defaults, asked.target, w)
  {
    after := before;
    var staged;
    staged, w := Stage(before, base, defaults, readable, plan, moves, asked, codec, entries, start);
    if staged.None? {
      r := Failure(ObjectConflict);
      return;
    }
    ghost var ready := w;
    r, after, w := CommitStaged(before, base, plan, staged.value, schema, baseIds, defaults, asked.target, w);
    SameButIds(before, base, readable, asked, ready, w);
  }

  // patchObjects, for a patch of the ontology. It succeeds exactly when there is a plan and every step goes through;
  // failing at any step, it commits nothing.
  method PatchOntology(db: Database, base: Snapshot, text: string, codec: Codec, unquote: Unquote, constrained: (Plan, IR.Moves) -> Constrained,
                       ghost schema: Schema, ghost baseIds: Ids)
      returns (r: Result<Snapshot>, ghost w: Done)
    requires Sound(db.stored) && Catalogued(base, db.stored) && Decodes(schema, db.stored.nodes, db.stored.edges, base, baseIds)
    requires NamedProperties(ObjectsOf(base)) && SoundCodec(codec)
    modifies db
    ensures PlanKnown(codec, text, unquote, base, w.planned, w.made)
    ensures w.planned ==> PlanDone(codec, text, unquote, base, w) && Prepared(base, w)
    ensures r.Success? <==> GoesThrough(old(db.stored), base, db.readable, constrained(w.plan, MovesOf(w.made)), w)
    ensures r.Failure? ==> db.stored == old(db.stored)
    ensures r.Success? ==> Sound(db.stored)
    ensures r.Success? ==> Committed(old(db.stored), db.stored, baseIds, base, r.value, db.defaults, constrained(w.plan, MovesOf(w.made)).target, w)
  {
    var before := db.stored;
    var planned;
    planned, w := PreparePlan(base, text, codec, unquote);
    if planned.Failure? {
      return Failure(planned.code), w;
    }
    var (plan, moves) := planned.value;
    var idle := IsNoOp(base, plan, moves);
    if idle {
      return Success(base), w;
    }
    var after;
    r, after, w := ExecutePlan(before, base, db.defaults, db.readable, plan, moves, constrained(plan, moves),
      codec, PatchFrom(text, unquote).value, schema, baseIds, w);
    if r.Success? {
      db.stored := after;
    }
  }

  // ----- what a committed patch keeps

  ghost predicate NodeStands(before: Stored, after: Stored, w: Done, id: nat) {
    id in before.dataNodes ==> id in after.dataNodes && NodeGoal(w.changes, before.dataNodes[id], after.dataNodes[id])
  }

  // It stands for one from before, with all its values under their new names.
  ghost predicate EdgeStands(before: Stored, after: Stored, w: Done, id: nat) {
    id in after.dataEdges ==>
      && id in w.origin && w.origin[id] in before.dataEdges
      && var e, f := before.dataEdges[w.origin[id]], after.dataEdges[id];
         forall i {:trigger w.changes[i]} :: 0 <= i < |w.changes| && From(w.changes[i], e) ==>
           f.kind == w.changes[i].target && f.start == e.start && f.end == e.end && KeepsAll(e.properties, w.changes[i].renames, f.properties)
  }

  lemma NodesKept(before: Stored, after: Stored, w: Done, id: nat)
    requires DataDone(before, after, w) && SafelyApart(w.plan, w.continuity, w.changes)
    ensures NodeStands(before, after, w, id)
  {
    SafeNodesExact(w.plan, w.continuity, w.refs, w.changes);
    var d := Data(before.dataNodes, before.dataEdges);
    assert id in d.nodes ==> SafeData(d, w.plan, w.continuity) && NodeGoal(w.changes, d.nodes[id], NodeFate(w.changes, d.nodes[id]));
  }

  lemma EdgesKept(before: Stored, after: Stored, w: Done, id: nat)
    requires DataDone(before, after, w) && RenameFates.Unchained(w.changes)
    ensures EdgeStands(before, after, w, id)
  {
    if id in after.dataEdges {
      assert w.origin[id] in w.origin.Values;
      var d, e := Data(before.dataNodes, before.dataEdges), before.dataEdges[w.origin[id]];
      assert after.dataEdges[id] == EdgeFate(w.changes, e);
      forall i | 0 <= i < |w.changes| && From(w.changes[i], e)
        ensures after.dataEdges[id].kind == w.changes[i].target && after.dataEdges[id].start == e.start && after.dataEdges[id].end == e.end
        ensures KeepsAll(e.properties, w.changes[i].renames, after.dataEdges[id].properties)
      {
        NoEdgeValueLost(d, w.plan, w.continuity, w.refs, w.changes, w.origin[id], i);
      }
    }
  }

  lemma IndexesKept(codec: Codec, text: string, unquote: Unquote, base: Snapshot, before: Stored, after: Stored, defaults: string, target: Constraints, w: Done)
    requires PlanDone(codec, text, unquote, base, w) && CatalogueDone(before, after, defaults, target, w) && FreshNames(w.plan, w.made)
    ensures w.targetIndexes == IX.Canons(w.made.settled) && after.indexes.Keys == w.made.settled.Keys
  {
    FreshNamesBack(codec, PatchFrom(text, unquote).value, w.plan, w.made, Success(w.targetIndexes));
  }

  // What is decoded is the plan, no data is lost, and the catalogue holds what the plan settled, all together:
  // where the Definitions of shared nodes are safely apart, relationship types are not chained, and no
  // renamed name is reused.
  lemma EverythingKept(codec: Codec, text: string, unquote: Unquote, base: Snapshot, before: Stored, after: Stored, baseIds: Ids,
                       decoded: Snapshot, defaults: string, target: Constraints, w: Done)
    requires PlanDone(codec, text, unquote, base, w) && GraphDone(before, after, baseIds, decoded, w)
    requires DataDone(before, after, w) && CatalogueDone(before, after, defaults, target, w)
    requires SafelyApart(w.plan, w.continuity, w.changes) && RenameFates.Unchained(w.changes) && FreshNames(w.plan, w.made)
    ensures ObjectsOf(decoded) == Planned(w.plan)
    ensures forall id :: NodeStands(before, after, w, id)
    ensures forall id :: EdgeStands(before, after, w, id)
    ensures after.indexes.Keys == w.made.settled.Keys && after.constraints.Keys == target.Keys
  {
    forall id ensures NodeStands(before, after, w, id) {
      NodesKept(before, after, w, id);
    }
    forall id ensures EdgeStands(before, after, w, id) {
      EdgesKept(before, after, w, id);
    }
    IndexesKept(codec, text, unquote, base, before, after, defaults, target, w);
  }
}
