// Moving the schema catalogue from a base State to a plan (internal/kernel/patch_execute.go,
// compiler_schema.go): changed indexes and constraints are dropped, then the changed constraints and
// indexes of the target are created, in a catalogue whose names constraints and indexes share.

module SchemaMigration {
  import opened Outcomes
  import opened Text
  import opened Sorting
  import opened Model
  import opened IndexEntries
  import opened IndexReading

  // constraintSpec.
  datatype ConstraintSpec = ConstraintSpec(name: string, owner: Ref, kind: string, properties: seq<string>)

  type Constraints = map<string, ConstraintSpec>

  // equalConstraintSpec.
  predicate SameConstraint(a: ConstraintSpec, b: ConstraintSpec) {
    a.owner == b.owner && a.kind == b.kind && Join(a.properties, '\0') == Join(b.properties, '\0')
  }

  // createConstraintCypher has a statement for it.
  predicate ConstraintStatement(spec: ConstraintSpec) {
    spec.properties != [] && IsDefinition(spec.owner.kind) && spec.kind in ["unique", "key"]
  }

  predicate SearchIndex(kind: string) {
    kind == "vector" || kind == "fulltext"
  }

  // createIndexCypher has a statement for it; readable says which hidden options it can carry over.
  predicate IndexStatement(readable: string -> bool, index: Logical) {
    && index.targets != [] && index.properties != []
    && (forall k :: 0 <= k < |index.targets| ==> index.targets[k].kind == index.targets[0].kind)
    && (SearchIndex(index.kind) && index.hidden.Some? ==> readable(index.hidden.value))
    && (index.kind == "vector" ==> |index.properties| == 1)
    && (index.kind != "vector" ==> IsDefinition(index.targets[0].kind) && index.kind in ["range", "text", "point", "fulltext"])
  }

  // A search index without options of its own gets the daemon's.
  function Installed(defaults: string, index: Logical): Logical {
    if SearchIndex(index.kind) && index.hidden.None? then index.(hidden := Some(defaults)) else index
  }

  // ----- what a migration leaves alone

  predicate Stays<V>(same: (V, V) -> bool, base: map<string, V>, target: map<string, V>, name: string) {
    name in base && name in target && same(base[name], target[name])
  }

  // The named resources that change are gone.
  ghost predicate DroppedOf<V(!new)>(same: (V, V) -> bool, base: map<string, V>, target: map<string, V>, done: set<string>, now: map<string, V>) {
    forall name {:trigger name in now} ::
      && (name in now <==> name in base && (name in done ==> Stays(same, base, target, name)))
      && (name in now ==> now[name] == base[name])
  }

  // Of the target, what stays and the named resources that change are there.
  ghost predicate CreatedOf<V(!new)>(same: (V, V) -> bool, made: V -> V, base: map<string, V>, target: map<string, V>, done: set<string>, now: map<string, V>) {
    forall name {:trigger name in now} ::
      && (name in now <==> Stays(same, base, target, name) || (name in target && name in done))
      && (name in now ==> now[name] == if Stays(same, base, target, name) then base[name] else made(target[name]))
  }

  lemma AllDropped<V(!new)>(same: (V, V) -> bool, made: V -> V, base: map<string, V>, target: map<string, V>, now: map<string, V>)
    requires DroppedOf(same, base, target, base.Keys, now)
    ensures CreatedOf(same, made, base, target, {}, now)
  {
  }

  ghost function Before(names: seq<string>, k: nat): set<string>
    requires k <= |names|
  {
    set i | 0 <= i < k :: names[i]
  }

  lemma OneMore(names: seq<string>, k: nat)
    requires k < |names|
    ensures Before(names, k + 1) == Before(names, k) + {names[k]}
    ensures Distinct(names) ==> names[k] !in Before(names, k)
  {
  }

  lemma AllOfThem(names: seq<string>, keys: set<string>)
    requires forall name :: name in names <==> name in keys
    ensures Before(names, |names|) == keys
  {
    forall name ensures name in Before(names, |names|) <==> name in keys {
      assert name in keys <==> name in names;
    }
  }

  lemma DropStep<V(!new)>(same: (V, V) -> bool, base: map<string, V>, target: map<string, V>, done: set<string>, now: map<string, V>, name: string)
    requires DroppedOf(same, base, target, done, now) && name in base && name !in done
    ensures name in now
    ensures DroppedOf(same, base, target, done + {name}, if Stays(same, base, target, name) then now else now - {name})
  {
  }

  lemma CreateStep<V(!new)>(same: (V, V) -> bool, made: V -> V, base: map<string, V>, target: map<string, V>, done: set<string>, now: map<string, V>, name: string)
    requires CreatedOf(same, made, base, target, done, now) && name in target && name !in done
    ensures !Stays(same, base, target, name) ==> name !in now
    ensures CreatedOf(same, made, base, target, done + {name}, if Stays(same, base, target, name) then now else now[name := made(target[name])])
  {
  }

  // ----- the catalogue

  // The staged catalogue; a statement fails, and changes nothing, where its name is taken or missing.
  class SchemaTransaction {
    var constraints: Constraints
    var indexes: Indexes
    const defaults: string
    const readable: string -> bool

    constructor (constraints: Constraints, indexes: Indexes, defaults: string, readable: string -> bool)
      ensures this.constraints == constraints && this.indexes == indexes && this.defaults == defaults && this.readable == readable
    {
      this.constraints, this.indexes, this.defaults, this.readable := constraints, indexes, defaults, readable;
    }

    method DropIndex(name: string) returns (ok: bool)
      modifies this`indexes
      ensures ok == (name in old(indexes))
      ensures indexes == if ok then old(indexes) - {name} else old(indexes)
    {
      ok := name in indexes;
      if ok {
        indexes := indexes - {name};
      }
    }

    method DropConstraint(name: string) returns (ok: bool)
      modifies this`constraints
      ensures ok == (name in old(constraints))
      ensures constraints == if ok then old(constraints) - {name} else old(constraints)
    {
      ok := name in constraints;
      if ok {
        constraints := constraints - {name};
      }
    }

    method CreateConstraint(name: string, spec: ConstraintSpec) returns (ok: bool)
      modifies this`constraints
      ensures ok == (name !in old(constraints) && name !in indexes)
      ensures constraints == if ok then old(constraints)[name := spec] else old(constraints)
    {
      ok := name !in constraints && name !in indexes;
      if ok {
        constraints := constraints[name := spec];
      }
    }

    method CreateIndex(name: string, index: Logical) returns (ok: bool)
      modifies this`indexes
      ensures ok == (name !in constraints && name !in old(indexes))
      ensures indexes == if ok then old(indexes)[name := Installed(defaults, index)] else old(indexes)
    {
      ok := name !in constraints && name !in indexes;
      if ok {
        indexes := indexes[name := Installed(defaults, index)];
      }
    }

    // dropChangedIndexes: every DROP finds its index.
    method DropChangedIndexes(base: Indexes, target: Indexes) returns (ok: bool)
      requires indexes == base
      modifies this`indexes
      ensures ok && DroppedOf(Agree, base, target, base.Keys, indexes)
    {
      var names := SortedList(base.Keys, Itself);
      var k := 0;
      while k < |names|
        invariant 0 <= k <= |names| && DroppedOf(Agree, base, target, Before(names, k), indexes)
      {
        var name := names[k];
        assert name in names;
        OneMore(names, k);
        DropStep(Agree, base, target, Before(names, k), indexes, name);
        k := k + 1;
        if name in target && Agree(base[name], target[name]) {
          continue;
        }
        var dropped := DropIndex(name);
        if !dropped {
          return false;
        }
      }
      AllOfThem(names, base.Keys);
      return true;
    }

    // dropChangedConstraints: every DROP finds its constraint.
    method DropChangedConstraints(base: Constraints, target: Constraints) returns (ok: bool)
      requires constraints == base
      modifies this`constraints
      ensures ok && DroppedOf(SameConstraint, base, target, base.Keys, constraints)
    {
      var names := SortedList(base.Keys, Itself);
      var k := 0;
      while k < |names|
        invariant 0 <= k <= |names| && DroppedOf(SameConstraint, base, target, Before(names, k), constraints)
      {
        var name := names[k];
        assert name in names;
        OneMore(names, k);
        DropStep(SameConstraint, base, target, Before(names, k), constraints, name);
        k := k + 1;
        if name in target && SameConstraint(base[name], target[name]) {
          continue;
        }
        var dropped := DropConstraint(name);
        if !dropped {
          return false;
        }
      }
      AllOfThem(names, base.Keys);
      return true;
    }

    // createChangedConstraints: it fails only over a constraint that has no statement, or over a name an
    // index holds.
    method CreateChangedConstraints(base: Constraints, target: Constraints) returns (ok: bool)
      requires DroppedOf(SameConstraint, base, target, base.Keys, constraints)
      modifies this`constraints
      ensures ok <==> forall name {:trigger ConstraintFits(base, target, indexes, name)} :: ConstraintFits(base, target, indexes, name)
      ensures ok ==> CreatedOf(SameConstraint, AsIs, base, target, target.Keys, constraints)
    {
      AllDropped(SameConstraint, AsIs, base, target, constraints);
      var names := SortedList(target.Keys, Itself);
      var k := 0;
      while k < |names|
        invariant 0 <= k <= |names| && CreatedOf(SameConstraint, AsIs, base, target, Before(names, k), constraints)
        invariant forall name {:trigger ConstraintFits(base, target, indexes, name)} :: name in Before(names, k) ==> ConstraintFits(base, target, indexes, name)
      {
        var name := names[k];
        assert name in names;
        OneMore(names, k);
        CreateStep(SameConstraint, AsIs, base, target, Before(names, k), constraints, name);
        k := k + 1;
        if name in base && SameConstraint(base[name], target[name]) {
          continue;
        }
        if !ConstraintStatement(target[name]) {
          assert !ConstraintFits(base, target, indexes, name);
          return false;
        }
        var created := CreateConstraint(name, target[name]);
        if !created {
          assert !ConstraintFits(base, target, indexes, name);
          return false;
        }
      }
      AllOfThem(names, target.Keys);
      return true;
    }

    // createChangedIndexes: it fails only over an index that has no statement, or over a name a constraint
    // holds.
    method CreateChangedIndexes(base: Indexes, target: Indexes) returns (ok: bool)
      requires DroppedOf(Agree, base, target, base.Keys, indexes)
      modifies this`indexes
      ensures ok <==> forall name {:trigger IndexFits(readable, base, target, constraints, name)} :: IndexFits(readable, base, target, constraints, name)
      ensures ok ==> CreatedOf(Agree, Make(defaults), base, target, target.Keys, indexes)
    {
      AllDropped(Agree, Make(defaults), base, target, indexes);
      var names := SortedList(target.Keys, Itself);
      var k := 0;
      while k < |names|
        invariant 0 <= k <= |names| && CreatedOf(Agree, Make(defaults), base, target, Before(names, k), indexes)
        invariant forall name {:trigger IndexFits(readable, base, target, constraints, name)} ::
                    name in Before(names, k) ==> IndexFits(readable, base, target, constraints, name)
      {
        var name := names[k];
        assert name in names;
        OneMore(names, k);
        CreateStep(Agree, Make(defaults), base, target, Before(names, k), indexes, name);
        k := k + 1;
        if name in base && Agree(base[name], target[name]) {
          continue;
        }
        if !IndexStatement(readable, target[name]) {
          assert !IndexFits(readable, base, target, constraints, name);
          return false;
        }
        var created := CreateIndex(name, target[name]);
        if !created {
          assert !IndexFits(readable, base, target, constraints, name);
          return false;
        }
      }
      AllOfThem(names, target.Keys);
      return true;
    }

    // The four steps, in the order the patch runs them.
    method Migrate(baseConstraints: Constraints, baseIndexes: Indexes, targetConstraints: Constraints, targetIndexes: Indexes) returns (ok: bool)
      requires constraints == baseConstraints && indexes == baseIndexes && baseConstraints.Keys !! baseIndexes.Keys
      modifies this
      ensures ok <==>
                && targetConstraints.Keys !! targetIndexes.Keys
                && Statements(readable, baseConstraints, baseIndexes, targetConstraints, targetIndexes)
      ensures ok ==> Reached(defaults, baseConstraints, baseIndexes, targetConstraints, targetIndexes, constraints, indexes)
    {
      var dropped := DropChangedIndexes(baseIndexes, targetIndexes);
      dropped := DropChangedConstraints(baseConstraints, targetConstraints);
      ghost var kept := indexes;
      ok := CreateChangedConstraints(baseConstraints, targetConstraints);
      if !ok {
        ConstraintsRefused(readable, baseConstraints, baseIndexes, targetConstraints, targetIndexes, kept);
        return;
      }
      ghost var made := constraints;
      ok := CreateChangedIndexes(baseIndexes, targetIndexes);
      assert constraints == made;
      if ok {
        forall name ensures IndexFits(readable, baseIndexes, targetIndexes, made, name) {
          assert IndexFits(readable, baseIndexes, targetIndexes, constraints, name);
        }
        AllFit(readable, baseConstraints, baseIndexes, targetConstraints, targetIndexes, kept, made);
        TargetReached(defaults, baseConstraints, baseIndexes, targetConstraints, targetIndexes, constraints, indexes);
      } else {
        IndexesRefused(readable, baseConstraints, baseIndexes, targetConstraints, targetIndexes, made);
      }
    }
  }

  function AsIs(spec: ConstraintSpec): ConstraintSpec {
    spec
  }

  function Make(defaults: string): Logical -> Logical {
    (index: Logical) => Installed(defaults, index)
  }

  predicate ConstraintFits(base: Constraints, target: Constraints, indexes: Indexes, name: string) {
    name in target && !Stays(SameConstraint, base, target, name) ==> ConstraintStatement(target[name]) && name !in indexes
  }

  predicate IndexFits(readable: string -> bool, base: Indexes, target: Indexes, constraints: Constraints, name: string) {
    name in target && !Stays(Agree, base, target, name) ==> IndexStatement(readable, target[name]) && name !in constraints
  }

  predicate HasStatements(readable: string -> bool, baseConstraints: Constraints, baseIndexes: Indexes,
                          targetConstraints: Constraints, targetIndexes: Indexes, name: string) {
    && (name in targetConstraints && !Stays(SameConstraint, baseConstraints, targetConstraints, name) ==> ConstraintStatement(targetConstraints[name]))
    && (name in targetIndexes && !Stays(Agree, baseIndexes, targetIndexes, name) ==> IndexStatement(readable, targetIndexes[name]))
  }

  // Everything that is to be created can be said.
  ghost predicate Statements(readable: string -> bool, baseConstraints: Constraints, baseIndexes: Indexes,
                             targetConstraints: Constraints, targetIndexes: Indexes) {
    forall name {:trigger HasStatements(readable, baseConstraints, baseIndexes, targetConstraints, targetIndexes, name)} ::
      HasStatements(readable, baseConstraints, baseIndexes, targetConstraints, targetIndexes, name)
  }

  // The catalogue holds the target and nothing else.
  ghost predicate Reached(defaults: string, baseConstraints: Constraints, baseIndexes: Indexes, targetConstraints: Constraints, targetIndexes: Indexes,
                          constraints: Constraints, indexes: Indexes) {
    && constraints.Keys == targetConstraints.Keys && indexes.Keys == targetIndexes.Keys
    && (forall name {:trigger constraints[name]} :: name in constraints ==> SameConstraint(constraints[name], targetConstraints[name]))
    && (forall name {:trigger indexes[name]} :: name in indexes ==>
          if Stays(Agree, baseIndexes, targetIndexes, name) then indexes[name] == baseIndexes[name] && Agree(indexes[name], targetIndexes[name])
          else indexes[name] == Installed(defaults, targetIndexes[name]))
  }

  // A name that an index keeps is no constraint's name in a disjoint target, and so on.
  lemma ConstraintsRefused(readable: string -> bool, baseConstraints: Constraints, baseIndexes: Indexes,
                           targetConstraints: Constraints, targetIndexes: Indexes, kept: Indexes)
    requires DroppedOf(Agree, baseIndexes, targetIndexes, baseIndexes.Keys, kept)
    requires exists name :: !ConstraintFits(baseConstraints, targetConstraints, kept, name)
    ensures !(targetConstraints.Keys !! targetIndexes.Keys) || !Statements(readable, baseConstraints, baseIndexes, targetConstraints, targetIndexes)
  {
    var name :| !ConstraintFits(baseConstraints, targetConstraints, kept, name);
    if name !in targetIndexes {
      assert name in kept <==> name in baseIndexes && (name in baseIndexes.Keys ==> Stays(Agree, baseIndexes, targetIndexes, name));
      assert !HasStatements(readable, baseConstraints, baseIndexes, targetConstraints, targetIndexes, name);
    } else {
      assert name in targetConstraints.Keys * targetIndexes.Keys;
    }
  }

  lemma IndexesRefused(readable: string -> bool, baseConstraints: Constraints, baseIndexes: Indexes,
                       targetConstraints: Constraints, targetIndexes: Indexes, made: Constraints)
    requires CreatedOf(SameConstraint, AsIs, baseConstraints, targetConstraints, targetConstraints.Keys, made)
    requires exists name :: !IndexFits(readable, baseIndexes, targetIndexes, made, name)
    ensures !(targetConstraints.Keys !! targetIndexes.Keys) || !Statements(readable, baseConstraints, baseIndexes, targetConstraints, targetIndexes)
  {
    var name :| !IndexFits(readable, baseIndexes, targetIndexes, made, name);
    if name in made {
      assert name in targetConstraints.Keys * targetIndexes.Keys;
    } else {
      assert !HasStatements(readable, baseConstraints, baseIndexes, targetConstraints, targetIndexes, name);
    }
  }

  lemma AllFit(readable: string -> bool, baseConstraints: Constraints, baseIndexes: Indexes,
               targetConstraints: Constraints, targetIndexes: Indexes, kept: Indexes, made: Constraints)
    requires baseConstraints.Keys !! baseIndexes.Keys
    requires DroppedOf(Agree, baseIndexes, targetIndexes, baseIndexes.Keys, kept)
    requires CreatedOf(SameConstraint, AsIs, baseConstraints, targetConstraints, targetConstraints.Keys, made)
    requires forall name {:trigger ConstraintFits(baseConstraints, targetConstraints, kept, name)} :: ConstraintFits(baseConstraints, targetConstraints, kept, name)
    requires forall name {:trigger IndexFits(readable, baseIndexes, targetIndexes, made, name)} :: IndexFits(readable, baseIndexes, targetIndexes, made, name)
    ensures targetConstraints.Keys !! targetIndexes.Keys
    ensures Statements(readable, baseConstraints, baseIndexes, targetConstraints, targetIndexes)
  {
    forall name ensures !(name in targetConstraints && name in targetIndexes)
      ensures HasStatements(readable, baseConstraints, baseIndexes, targetConstraints, targetIndexes, name)
    {
      assert ConstraintFits(baseConstraints, targetConstraints, kept, name);
      assert IndexFits(readable, baseIndexes, targetIndexes, made, name);
      assert name in made <==> Stays(SameConstraint, baseConstraints, targetConstraints, name) || (name in targetConstraints && name in targetConstraints.Keys);
      assert name in kept <==> name in baseIndexes && (name in baseIndexes.Keys ==> Stays(Agree, baseIndexes, targetIndexes, name));
    }
  }

  lemma TargetReached(defaults: string, baseConstraints: Constraints, baseIndexes: Indexes, targetConstraints: Constraints, targetIndexes: Indexes,
                      constraints: Constraints, indexes: Indexes)
    requires CreatedOf(SameConstraint, AsIs, baseConstraints, targetConstraints, targetConstraints.Keys, constraints)
    requires CreatedOf(Agree, Make(defaults), baseIndexes, targetIndexes, targetIndexes.Keys, indexes)
    ensures Reached(defaults, baseConstraints, baseIndexes, targetConstraints, targetIndexes, constraints, indexes)
  {
    forall name ensures name in constraints <==> name in targetConstraints {
    }
    forall name ensures name in indexes <==> name in targetIndexes {
    }
  }

  // ----- what a migration needs and leaves, in the words of the catalogue

  // The two declare the same index, property lists read as one text.
  predicate SameIndex(a: Logical, b: Logical) {
    a.name == b.name && a.kind == b.kind && a.targets == b.targets && Join(a.properties, '\0') == Join(b.properties, '\0')
  }

  ghost predicate ConstraintTaken(base: Constraints, name: string, spec: ConstraintSpec) {
    || (name in base && base[name].owner == spec.owner && base[name].kind == spec.kind && Join(base[name].properties, '\0') == Join(spec.properties, '\0'))
    || (spec.properties != [] && (spec.owner.kind == NodeDefinition || spec.owner.kind == RelationshipDefinition) && (spec.kind == "unique" || spec.kind == "key"))
  }

  ghost predicate IndexTaken(readable: string -> bool, base: Indexes, name: string, index: Logical) {
    || (name in base && SameIndex(base[name], index) && base[name].hidden == index.hidden)
    || (&& index.targets != [] && index.properties != [] && (forall t :: t in index.targets ==> t.kind == index.targets[0].kind)
        && match index.kind
           case "range" => IsDefinition(index.targets[0].kind)
           case "text" => IsDefinition(index.targets[0].kind)
           case "point" => IsDefinition(index.targets[0].kind)
           case "fulltext" => IsDefinition(index.targets[0].kind) && (index.hidden.Some? ==> readable(index.hidden.value))
           case "vector" => |index.properties| == 1 && (index.hidden.Some? ==> readable(index.hidden.value))
           case _ => false)
  }

  lemma StatementTaken(readable: string -> bool, base: Indexes, name: string, index: Logical)
    ensures IndexTaken(readable, base, name, index) <==> (name in base && Agree(base[name], index)) || IndexStatement(readable, index)
  {
    assert (forall t :: t in index.targets ==> t.kind == index.targets[0].kind) <==>
           (forall k :: 0 <= k < |index.targets| ==> index.targets[k].kind == index.targets[0].kind);
  }

  // A target can be migrated to exactly when each of its constraints and indexes is there already or can be created:
  // a rule over some properties of one Definition, an index over some properties of Definitions of one kind.
  lemma MigrationNeeds(readable: string -> bool, baseConstraints: Constraints, baseIndexes: Indexes, targetConstraints: Constraints, targetIndexes: Indexes)
    ensures Statements(readable, baseConstraints, baseIndexes, targetConstraints, targetIndexes) <==>
              && (forall name {:trigger targetConstraints[name]} :: name in targetConstraints ==> ConstraintTaken(baseConstraints, name, targetConstraints[name]))
              && (forall name {:trigger targetIndexes[name]} :: name in targetIndexes ==> IndexTaken(readable, baseIndexes, name, targetIndexes[name]))
  {
    forall name
      ensures HasStatements(readable, baseConstraints, baseIndexes, targetConstraints, targetIndexes, name) <==>
                && (name in targetConstraints ==> ConstraintTaken(baseConstraints, name, targetConstraints[name]))
                && (name in targetIndexes ==> IndexTaken(readable, baseIndexes, name, targetIndexes[name]))
    {
      if name in targetIndexes {
        StatementTaken(readable, baseIndexes, name, targetIndexes[name]);
      }
    }
    if Statements(readable, baseConstraints, baseIndexes, targetConstraints, targetIndexes) {
      forall name | name in targetConstraints ensures ConstraintTaken(baseConstraints, name, targetConstraints[name]) {
        assert HasStatements(readable, baseConstraints, baseIndexes, targetConstraints, targetIndexes, name);
      }
      forall name | name in targetIndexes ensures IndexTaken(readable, baseIndexes, name, targetIndexes[name]) {
        assert HasStatements(readable, baseConstraints, baseIndexes, targetConstraints, targetIndexes, name);
      }
    }
  }

  // After a migration every index of the target is there as the target declares it, with its own hidden options if
  // it has any; a search index without them has the daemon's.
  lemma IndexInstalled(defaults: string, baseConstraints: Constraints, baseIndexes: Indexes, targetConstraints: Constraints, targetIndexes: Indexes,
                       constraints: Constraints, indexes: Indexes, name: string)
    requires Reached(defaults, baseConstraints, baseIndexes, targetConstraints, targetIndexes, constraints, indexes) && name in targetIndexes
    ensures name in indexes && SameIndex(indexes[name], targetIndexes[name])
    ensures targetIndexes[name].hidden.Some? ==> indexes[name].hidden == targetIndexes[name].hidden
    ensures targetIndexes[name].hidden.None? ==>
              || indexes[name].hidden == None
              || (indexes[name].hidden == Some(defaults) && (indexes[name].kind == "vector" || indexes[name].kind == "fulltext"))
    ensures targetIndexes[name].hidden.None? && name !in baseIndexes && (indexes[name].kind == "vector" || indexes[name].kind == "fulltext") ==>
              indexes[name].hidden == Some(defaults)
  {
    assert indexes[name] == indexes[name];
  }

  // ----- validateConstraintIndexCoexistence

  // The unique and key rules that the engine backs by a range index of its own.
  predicate Backed(constraints: Constraints, unique: set<(Ref, string)>, owner: Ref, properties: seq<string>) {
    || (exists name :: name in constraints && BacksRange(constraints[name], owner, properties))
    || (exists p :: p in unique && p.0 == owner && properties == [p.1])
  }

  predicate BacksRange(spec: ConstraintSpec, owner: Ref, properties: seq<string>) {
    spec.kind in ["unique", "key"] && spec.owner == owner && spec.properties == properties
  }

  predicate Duplicates(constraints: Constraints, unique: set<(Ref, string)>, index: Logical) {
    index.kind == "range" && |index.targets| == 1 && Backed(constraints, unique, index.targets[0], index.properties)
  }

  ghost predicate Coexist(constraints: Constraints, unique: set<(Ref, string)>, indexes: Indexes) {
    && constraints.Keys !! indexes.Keys
    && forall name {:trigger indexes[name]} :: name in indexes ==> !Duplicates(constraints, unique, indexes[name])
  }

  method BackingRanges(constraints: Constraints, unique: set<(Ref, string)>) returns (backing: set<(Ref, seq<string>)>)
    ensures forall owner, properties {:trigger (owner, properties) in backing} :: (owner, properties) in backing <==> Backed(constraints, unique, owner, properties)
  {
    backing := {};
    var names := constraints.Keys;
    while names != {}
      invariant names <= constraints.Keys
      invariant forall owner, properties {:trigger (owner, properties) in backing} :: (owner, properties) in backing <==>
                  exists name :: name in constraints && name !in names && BacksRange(constraints[name], owner, properties)
      decreases |names|
    {
      var name :| name in names;
      if constraints[name].kind in ["unique", "key"] {
        assert BacksRange(constraints[name], constraints[name].owner, constraints[name].properties);
        backing := backing + {(constraints[name].owner, constraints[name].properties)};
      }
      names := names - {name};
    }
    var rest := unique;
    while rest != {}
      invariant rest <= unique
      invariant forall owner, properties {:trigger (owner, properties) in backing} :: (owner, properties) in backing <==>
                  || (exists name :: name in constraints && BacksRange(constraints[name], owner, properties))
                  || (exists p :: p in unique && p !in rest && p.0 == owner && properties == [p.1])
      decreases |rest|
    {
      var p :| p in rest;
      backing := backing + {(p.0, [p.1])};
      rest := rest - {p};
    }
  }

  method ValidateConstraintIndexCoexistence(constraints: Constraints, unique: set<(Ref, string)>, indexes: Indexes) returns (ok: bool)
    ensures ok <==> Coexist(constraints, unique, indexes)
  {
    var names := constraints.Keys;
    while names != {}
      invariant names <= constraints.Keys && forall name :: name in constraints && name !in names ==> name !in indexes
      decreases |names|
    {
      var name :| name in names;
      if name in indexes {
        assert name in constraints.Keys * indexes.Keys;
        return false;
      }
      names := names - {name};
    }
    var backing := BackingRanges(constraints, unique);
    var left := indexes.Keys;
    while left != {}
      invariant left <= indexes.Keys
      invariant forall name {:trigger indexes[name]} :: name in indexes && name !in left ==> !Duplicates(constraints, unique, indexes[name])
      decreases |left|
    {
      var name :| name in left;
      var index := indexes[name];
      if index.kind == "range" && |index.targets| == 1 {
        if (index.targets[0], index.properties) in backing {
          return false;
        }
      }
      left := left - {name};
    }
    return true;
  }

  // What the validation lets through can be migrated: the target is reached exactly when it has statements.
  method ApplySchema(tx: SchemaTransaction, unique: set<(Ref, string)>, baseConstraints: Constraints, baseIndexes: Indexes,
                     targetConstraints: Constraints, targetIndexes: Indexes) returns (ok: bool)
    requires tx.constraints == baseConstraints && tx.indexes == baseIndexes && baseConstraints.Keys !! baseIndexes.Keys
    modifies tx
    ensures ok <==>
              && Coexist(targetConstraints, unique, targetIndexes)
              && Statements(tx.readable, baseConstraints, baseIndexes, targetConstraints, targetIndexes)
    ensures ok ==> Reached(tx.defaults, baseConstraints, baseIndexes, targetConstraints, targetIndexes, tx.constraints, tx.indexes)
    ensures !Coexist(targetConstraints, unique, targetIndexes) ==> tx.constraints == old(tx.constraints) && tx.indexes == old(tx.indexes)
  {
    ok := ValidateConstraintIndexCoexistence(targetConstraints, unique, targetIndexes);
    if ok {
      ok := tx.Migrate(baseConstraints, baseIndexes, targetConstraints, targetIndexes);
    }
  }
}
