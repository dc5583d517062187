// applyDerivedPropertyRenames (internal/kernel/patch_knowledge_plan.go): the same renames, applied one
// after the other to the properties of a planned Knowledge value.

module DerivedRenames {
  import opened Outcomes
  import opened Text
  import opened Sorting
  import opened Model
  import opened RenameFacts
  import opened RenameFates

  // One round of the loop: move the value under oldName, if there is one; equalRawJSON compares canonical texts.
  function Move(p: Properties, oldName: string, name: string): Result<Properties> {
    if oldName !in p then Success(p)
    else if name in p && p[oldName] != p[name] then Failure(ObjectConflict)
    else Success(p[name := p[oldName]] - {oldName})
  }

  function Moved(p: Properties, names: seq<string>, renames: Renames): Result<Properties>
    requires forall n :: n in names ==> n in renames
    decreases |names|
  {
    if names == [] then Success(p)
    else
      match Move(p, names[0], renames[names[0]])
      case Failure(code) => Failure(code)
      case Success(q) => Moved(q, names[1..], renames)
  }

  method ApplyInOrder(properties: Properties, names: seq<string>, renames: Renames) returns (r: Result<Properties>)
    requires forall n :: n in names ==> n in renames
    ensures r == Moved(properties, names, renames)
  {
    var p := properties;
    var k := 0;
    while k < |names|
      invariant 0 <= k <= |names|
      invariant Moved(p, names[k..], renames) == Moved(properties, names, renames)
    {
      var oldName := names[k];
      assert names[k..][1..] == names[k + 1..];
      if oldName in p {
        var name := renames[oldName];
        if name in p && p[oldName] != p[name] {
          return Failure(ObjectConflict);
        }
        p := p[name := p[oldName]] - {oldName};
      }
      k := k + 1;
    }
    return Success(p);
  }

  // The old names in the order of sort.Strings.
  ghost predicate Listing(names: seq<string>, renames: Renames) {
    Distinct(names) && Ordered(names, n => n) && forall n :: n in names <==> n in renames
  }

  lemma ListingUnique(a: seq<string>, b: seq<string>, renames: Renames)
    requires Listing(a, renames) && Listing(b, renames)
    ensures a == b
  {
    forall n ensures multiset(a)[n] == multiset(b)[n] {
      CountsOnce(a, n);
      CountsOnce(b, n);
    }
    assert multiset(a) == multiset(b);
    OrderedUnique(a, b, Itself);
  }

  lemma {:induction false} Enumerated(names: set<string>) returns (listed: seq<string>)
    ensures Distinct(listed) && forall n :: n in listed <==> n in names
    decreases |names|
  {
    if names == {} {
      listed := [];
    } else {
      var n :| n in names;
      var rest := Enumerated(names - {n});
      listed := [n] + rest;
    }
  }

  lemma ListingExists(renames: Renames)
    ensures exists names :: Listing(names, renames)
  {
    var listed := Enumerated(renames.Keys);
    var names := Sorted(listed, Itself);
    SortedOrdered(listed, Itself);
    forall n ensures multiset(names)[n] <= 1 && (n in names <==> n in listed) {
      CountsOnce(listed, n);
      assert n in names <==> n in multiset(names);
      assert n in listed <==> n in multiset(listed);
    }
    DistinctByCount(names);
    assert Listing(names, renames);
  }

  ghost function NameList(renames: Renames): (names: seq<string>)
    ensures Listing(names, renames)
  {
    ListingExists(renames);
    var names :| Listing(names, renames);
    names
  }

  lemma NamesListed(renames: Renames)
    ensures Listing(NameList(renames), renames)
  {
  }

  // A name that is both given up and taken is given up first.
  ghost predicate GivenUpFirst(names: seq<string>, renames: Renames)
    requires forall n :: n in names ==> n in renames
  {
    forall i, j {:trigger names[i], names[j]} :: 0 <= i < |names| && 0 <= j < |names| && renames[names[i]] == names[j] ==> j < i
  }

  // No value stands under a name that is taken, unless it is given up before.
  ghost predicate Free(p: Properties, names: seq<string>, renames: Renames)
    requires forall n :: n in names ==> n in renames
  {
    forall i {:trigger names[i]} :: 0 <= i < |names| && renames[names[i]] in p ==> renames[names[i]] in names[..i]
  }

  function Only(renames: Renames, names: seq<string>): Renames {
    map n | n in renames && n in names :: renames[n]
  }

  lemma TailFree(p: Properties, names: seq<string>, renames: Renames)
    requires names != [] && Distinct(names) && (forall n :: n in names ==> n in renames) && Moving(renames)
    requires GivenUpFirst(names, renames) && Free(p, names, renames)
    ensures renames[names[0]] !in p && renames[names[0]] !in names
    ensures Move(p, names[0], renames[names[0]]).Success?
    ensures GivenUpFirst(names[1..], renames) && Free(Move(p, names[0], renames[names[0]]).value, names[1..], renames)
  {
    var o, n := names[0], renames[names[0]];
    assert names[..0] == [];
    var q := Move(p, o, n).value;
    forall i | 0 <= i < |names[1..]| && renames[names[1..][i]] in q ensures renames[names[1..][i]] in names[1..][..i] {
      var t := renames[names[i + 1]];
      assert t in names[..i + 1];
      assert names[..i + 1] == [o] + names[1..][..i];
      assert t != o;
    }
  }

  lemma MoveMeans(p: Properties, o: string, n: string, renames: Renames, rest: Renames, name: string, value: string)
    requires Moving(renames) && o in renames && renames[o] == n && n !in renames && n !in p && rest == renames - {o}
    ensures Move(p, o, n).Success?
    ensures HasAfter(Move(p, o, n).value, rest, name, value) <==> HasAfter(p, renames, name, value)
  {
    var q := Move(p, o, n).value;
    forall a | a in rest ensures a != o && a != n && rest[a] == renames[a] != n && (a in q <==> a in p) && (a in p ==> q[a] == p[a]) {
    }
    if name == n {
      assert HasAfter(p, renames, n, value) <==> o in p && p[o] == value;
    } else {
      forall a | a in renames && renames[a] == name ensures a in rest {
      }
    }
  }

  lemma NoRenames(p: Properties, renames: Renames)
    requires renames == map[]
    ensures Simultaneous(p, renames, p)
  {
    assert renames.Values == {};
    forall name, value ensures (name in p && p[name] == value) <==> HasAfter(p, renames, name, value) {
    }
  }

  lemma MoveThenRest(p: Properties, o: string, n: string, renames: Renames, rest: Renames, r: Properties)
    requires Moving(renames) && o in renames && renames[o] == n && n !in renames && n !in p && rest == renames - {o}
    requires Move(p, o, n).Success? && Simultaneous(Move(p, o, n).value, rest, r)
    ensures Simultaneous(p, renames, r)
  {
    forall name, value ensures (name in r && r[name] == value) <==> HasAfter(p, renames, name, value) {
      MoveMeans(p, o, n, renames, rest, name, value);
      assert HasAfter(Move(p, o, n).value, rest, name, value) <==> HasAfter(p, renames, name, value);
    }
  }

  // The loop succeeds and has renamed these names at once.
  ghost predicate MovedAtOnce(p: Properties, names: seq<string>, renames: Renames)
    requires forall n :: n in names ==> n in renames
  {
    Moved(p, names, renames).Success? && Simultaneous(p, Only(renames, names), Moved(p, names, renames).value)
  }

  lemma OnlyTail(names: seq<string>, renames: Renames)
    requires names != [] && Distinct(names) && (forall n :: n in names ==> n in renames) && Moving(renames)
    ensures Only(renames, names[1..]) == Only(renames, names) - {names[0]}
    ensures Moving(Only(renames, names)) && names[0] in Only(renames, names)
  {
  }

  lemma InOrderStep(p: Properties, names: seq<string>, renames: Renames, n: string, q: Properties)
    requires names != [] && Distinct(names) && (forall m :: m in names ==> m in renames) && Moving(renames)
    requires n == renames[names[0]] && n !in p && n !in names && Move(p, names[0], n) == Success(q)
    requires MovedAtOnce(q, names[1..], renames)
    ensures MovedAtOnce(p, names, renames)
  {
    OnlyTail(names, renames);
    var all := Only(renames, names);
    MoveThenRest(p, names[0], n, all, all - {names[0]}, Moved(q, names[1..], renames).value);
  }

  // Each name is given up before it is taken: one after the other is all at once.
  lemma {:induction false} InOrder(p: Properties, names: seq<string>, renames: Renames)
    requires Distinct(names) && (forall n :: n in names ==> n in renames) && Moving(renames)
    requires GivenUpFirst(names, renames) && Free(p, names, renames)
    ensures MovedAtOnce(p, names, renames)
    decreases |names|
  {
    if names == [] {
      assert Only(renames, names) == map[];
      NoRenames(p, Only(renames, names));
    } else {
      var n := renames[names[0]];
      TailFree(p, names, renames);
      var q := Move(p, names[0], n).value;
      InOrder(q, names[1..], renames);
      InOrderStep(p, names, renames, n, q);
    }
  }

  // Whether, with no value under a name that is only taken, the loop renames all at once.
  ghost predicate Meets(p: Properties, names: seq<string>, renames: Renames)
    requires forall n :: n in names ==> n in renames
  {
    Moved(p, names, renames).Success? && Simultaneous(p, renames, Moved(p, names, renames).value)
  }

  // A lone value that is moved away from a name no later round fills does not end there.
  lemma {:induction false} LeavesForGood(key: string, value: string, names: seq<string>, renames: Renames, left: string)
    requires (forall n :: n in names ==> n in renames && renames[n] != left) && Moving(renames)
    requires key == left ==> left in names
    ensures Moved(map[key := value], names, renames).Success? && left !in Moved(map[key := value], names, renames).value
    decreases |names|
  {
    if names != [] {
      var o, n := names[0], renames[names[0]];
      if o == key {
        assert map[key := value][n := value] - {key} == map[n := value];
        LeavesForGood(n, value, names[1..], renames, left);
      } else {
        LeavesForGood(key, value, names[1..], renames, left);
      }
    }
  }

  lemma {:induction false} NothingToMove(p: Properties, names: seq<string>, rest: seq<string>, renames: Renames)
    requires forall n :: n in names + rest ==> n in renames
    requires forall n :: n in names ==> n !in p
    ensures Moved(p, names + rest, renames) == Moved(p, rest, renames)
  {
    if names == [] {
      assert names + rest == rest;
    } else {
      DropConcat(names, rest);
      NothingToMove(p, names[1..], rest, renames);
    }
  }

  // A name taken before it is given up: the value moved onto it is moved on.
  lemma TakenTooEarly(names: seq<string>, renames: Renames, i: nat, j: nat)
    requires Distinct(names) && (forall n :: n in names <==> n in renames) && Moving(renames)
    requires i < |names| && j < |names| && i <= j && renames[names[i]] == names[j]
    ensures Moved(map[names[i] := ""], names, renames).Success? && names[j] !in Moved(map[names[i] := ""], names, renames).value
  {
    var a, b, p := names[i], names[j], map[names[i] := ""];
    assert names == names[..i] + names[i..];
    NothingToMove(p, names[..i], names[i..], renames);
    assert names[i..][1..] == names[i + 1..];
    assert p[b := ""] - {a} == map[b := ""];
    assert b == names[i + 1..][j - i - 1];
    LeavesForGood(b, "", names[i + 1..], renames, b);
  }

  lemma TakenTooEarlyMisses(names: seq<string>, renames: Renames, i: nat, j: nat)
    requires Distinct(names) && (forall n :: n in names <==> n in renames) && Moving(renames)
    requires i < |names| && j < |names| && i <= j && renames[names[i]] == names[j]
    ensures TargetsFree(map[names[i] := ""], renames) && !Meets(map[names[i] := ""], names, renames)
  {
    TakenTooEarly(names, renames, i, j);
    assert HasAfter(map[names[i] := ""], renames, names[j], "");
  }

  // A lone value is moved once, if each name is given up first.
  lemma {:induction false} LoneMoved(key: string, value: string, names: seq<string>, renames: Renames)
    requires Distinct(names) && (forall n :: n in names ==> n in renames) && Moving(renames) && GivenUpFirst(names, renames)
    ensures Moved(map[key := value], names, renames) == Success(map[if key in names then renames[key] else key := value])
    decreases |names|
  {
    if names != [] {
      var o, n := names[0], renames[names[0]];
      assert n !in names;
      assert names == [o] + names[1..];
      if o == key {
        assert map[key := value][n := value] - {key} == map[n := value];
        LoneMoved(n, value, names[1..], renames);
      } else {
        LoneMoved(key, value, names[1..], renames);
      }
    }
  }

  // The renames of the values that are there.
  function Present(p: Properties, names: seq<string>, renames: Renames): Renames {
    map n | n in renames && n in names && n in p :: renames[n]
  }

  // Where a value that is there moves, no value stands that has not been given up before.
  ghost predicate FreeForMoves(p: Properties, names: seq<string>, renames: Renames)
    requires forall n :: n in names ==> n in renames
  {
    forall i {:trigger names[i]} :: 0 <= i < |names| && names[i] in p && renames[names[i]] in p ==> renames[names[i]] in names[..i]
  }

  lemma TailFreeForMoves(p: Properties, names: seq<string>, renames: Renames)
    requires names != [] && Distinct(names) && (forall n :: n in names ==> n in renames) && Moving(renames)
    requires GivenUpFirst(names, renames) && FreeForMoves(p, names, renames)
    ensures names[0] in p ==> renames[names[0]] !in p
    ensures renames[names[0]] !in names && Move(p, names[0], renames[names[0]]).Success?
    ensures GivenUpFirst(names[1..], renames) && FreeForMoves(Move(p, names[0], renames[names[0]]).value, names[1..], renames)
  {
    var o, n := names[0], renames[names[0]];
    assert names[..0] == [];
    var q := Move(p, o, n).value;
    forall i | 0 <= i < |names[1..]| && names[1..][i] in q && renames[names[1..][i]] in q ensures renames[names[1..][i]] in names[1..][..i] {
      var t := renames[names[i + 1]];
      assert names[i + 1] in p && t != n && t in p;
      assert t in names[..i + 1];
      assert names[..i + 1] == [o] + names[1..][..i];
    }
  }

  lemma PresentTail(p: Properties, names: seq<string>, renames: Renames, q: Properties)
    requires names != [] && Distinct(names) && (forall n :: n in names ==> n in renames) && Moving(renames)
    requires renames[names[0]] !in names && Move(p, names[0], renames[names[0]]) == Success(q)
    ensures Present(q, names[1..], renames) == if names[0] in p then Present(p, names, renames) - {names[0]} else Present(p, names, renames)
    ensures Moving(Present(p, names, renames))
  {
    assert names == [names[0]] + names[1..];
  }

  // One after the other, each given up first, is all at once for the values that are there.
  lemma {:induction false} PresentAtOnce(p: Properties, names: seq<string>, renames: Renames)
    requires Distinct(names) && (forall n :: n in names ==> n in renames) && Moving(renames)
    requires GivenUpFirst(names, renames) && FreeForMoves(p, names, renames)
    ensures Moved(p, names, renames).Success? && Simultaneous(p, Present(p, names, renames), Moved(p, names, renames).value)
    decreases |names|
  {
    if names == [] {
      assert Present(p, names, renames) == map[];
      NoRenames(p, map[]);
    } else {
      var o, n := names[0], renames[names[0]];
      TailFreeForMoves(p, names, renames);
      var q := Move(p, o, n).value;
      PresentAtOnce(q, names[1..], renames);
      PresentTail(p, names, renames, q);
      if o in p {
        var all := Present(p, names, renames);
        MoveThenRest(p, o, n, all, all - {o}, Moved(q, names[1..], renames).value);
      }
    }
  }

  // One after the other is all at once for every value exactly when each name is given up first.
  lemma OrderExact(names: seq<string>, renames: Renames)
    requires Distinct(names) && (forall n :: n in names <==> n in renames) && Moving(renames)
    ensures GivenUpFirst(names, renames) <==> forall p {:trigger Meets(p, names, renames)} :: TargetsFree(p, renames) ==> Meets(p, names, renames)
  {
    if GivenUpFirst(names, renames) {
      assert Only(renames, names) == renames;
      forall p | TargetsFree(p, renames) ensures Meets(p, names, renames) {
        forall i | 0 <= i < |names| && renames[names[i]] in p ensures renames[names[i]] in names[..i] {
          var j :| 0 <= j < |names| && names[j] == renames[names[i]];
        }
        InOrder(p, names, renames);
      }
    } else {
      var i, j :| 0 <= i < |names| && 0 <= j < |names| && renames[names[i]] == names[j] && !(j < i);
      TakenTooEarlyMisses(names, renames, i, j);
      assert !Meets(map[names[i] := ""], names, renames);
    }
  }

  // The condition on the rename map alone: along every link the new name sorts before the old one.
  ghost predicate Descending(renames: Renames) {
    forall n :: n in renames && renames[n] in renames ==> !LexLe(n, renames[n])
  }

  lemma DescendingOrder(names: seq<string>, renames: Renames)
    requires Listing(names, renames) && Moving(renames)
    ensures Descending(renames) <==> GivenUpFirst(names, renames)
  {
    forall i, j | 0 <= i < |names| && 0 <= j < |names| && renames[names[i]] == names[j]
      ensures j < i <==> !LexLe(names[i], names[j])
    {
      if j < i {
        assert LexLe(names[j], names[i]);
        if LexLe(names[i], names[j]) {
          LexAntisymmetric(names[i], names[j]);
        }
      } else {
        assert i < j;
      }
    }
    if GivenUpFirst(names, renames) {
      forall n | n in renames && renames[n] in renames ensures !LexLe(n, renames[n]) {
        var i :| 0 <= i < |names| && names[i] == n;
        var j :| 0 <= j < |names| && names[j] == renames[n];
      }
    }
  }

  // Descending renames, disjoint old and new names among them, are applied as if at once.
  method ApplyDerivedPropertyRenames(properties: Properties, renames: Renames) returns (r: Result<Properties>)
    requires Moving(renames)
    ensures Descending(renames) && TargetsFree(properties, renames) ==> r.Success? && Simultaneous(properties, renames, r.value)
    ensures r == Moved(properties, NameList(renames), renames)
  {
    var names := SortedList(renames.Keys, Itself);
    NamesListed(renames);
    ListingUnique(names, NameList(renames), renames);
    DescendingOrder(names, renames);
    OrderExact(names, renames);
    assert Descending(renames) && TargetsFree(properties, renames) ==> Meets(properties, names, renames);
    r := ApplyInOrder(properties, names, renames);
  }

  lemma DisjointIsDescending(renames: Renames)
    requires renames.Keys !! renames.Values
    ensures Descending(renames)
  {
  }

  // For other renames it goes wrong on some value, whatever sort.Strings leaves to chance.
  lemma AscendingFails(names: seq<string>, renames: Renames)
    requires Listing(names, renames) && Moving(renames) && !Descending(renames)
    ensures exists p {:trigger Meets(p, names, renames)} :: TargetsFree(p, renames) && !Meets(p, names, renames)
  {
    DescendingOrder(names, renames);
    OrderExact(names, renames);
  }

  // ----- mergeOntologyDerivedKnowledge on a planned relationship

  // What the first k changes have done to the relationship.
  ghost predicate Merged(changes: seq<Change>, k: nat, e: DataEdge, f: DataEdge) {
    && k <= |changes|
    && (forall i :: 0 <= i < k && From(changes[i], e) ==>
         && f.kind == changes[i].target && f.start == e.start && f.end == e.end
         && Simultaneous(e.properties, changes[i].renames, f.properties))
    && ((forall i :: 0 <= i < k ==> !From(changes[i], e)) ==> f == e)
  }

  // The relationship's own rename can be applied one name after the other.
  ghost predicate Applicable(changes: seq<Change>, e: DataEdge) {
    forall i :: 0 <= i < |changes| && From(changes[i], e) ==> Descending(changes[i].renames) && TargetsFree(e.properties, changes[i].renames)
  }

  lemma MergedMeetsOnce(changes: seq<Change>, k: nat, e: DataEdge, f: DataEdge)
    requires ValidChanges(changes) && EdgeSafe(changes, e) && Unchained(changes) && k < |changes| && Merged(changes, k, e, f)
    ensures From(changes[k], e) ==> f == e
    ensures !From(changes[k], e) ==> Merged(changes, k + 1, e, f) && !(Renamed(changes[k]) && From(changes[k], f)) && !Into(changes[k], f)
  {
    if i :| 0 <= i < k && From(changes[i], e) {
      assert Exposed(changes, i);
      assert !Reuses(changes[i], changes[k]);
    }
  }

  // A planned relationship value and the stored relationship it replaces are renamed alike.
  method MergeDerivedRelationship(changes: seq<Change>, e: DataEdge) returns (r: Result<DataEdge>)
    requires ValidChanges(changes)
    ensures EdgeSafe(changes, e) && Unchained(changes) && Applicable(changes, e) ==> r.Success? && EdgeGoal(changes, e, r.value)
  {
    ghost var meets := EdgeSafe(changes, e) && Unchained(changes) && Applicable(changes, e);
    var f := e;
    var k := 0;
    while k < |changes|
      invariant 0 <= k <= |changes| && (meets ==> Merged(changes, k, e, f))
    {
      var c := changes[k];
      if meets {
        MergedMeetsOnce(changes, k, e, f);
      }
      if c.kind == RelationshipDefinition {
        if c.target != c.base && f.kind == c.base {
          f := f.(kind := c.target);
        }
        if f.kind == c.target {
          var properties := ApplyDerivedPropertyRenames(f.properties, c.renames);
          if properties.Failure? {
            return Failure(properties.code);
          }
          f := f.(properties := properties.value);
        }
      }
      k := k + 1;
    }
    return Success(f);
  }
}

// mergeOntologyDerivedKnowledge on a planned node, which may be under several Definitions.
module DerivedNodes {
  import opened Outcomes
  import opened Sorting
  import opened Model
  import opened RenameFacts
  import opened RenameFates
  import opened NodeOverlaps
  import opened DerivedRenames

  // ----- the loop

  // The node's labels once c is handled, as the loop changes them.
  function Relabelled(c: Change, labels: set<string>): set<string> {
    if c.target != c.base && c.base in labels then (if c.keepsLabel then labels else labels - {c.base}) + {c.target} else labels
  }

  ghost function PlannedRound(c: Change, m: DataNode): Result<DataNode> {
    if c.kind != NodeDefinition then Success(m)
    else if c.target !in Relabelled(c, m.labels) then Success(DataNode(Relabelled(c, m.labels), m.properties))
    else
      match Moved(m.properties, NameList(c.renames), c.renames)
      case Failure(code) => Failure(code)
      case Success(p) => Success(DataNode(Relabelled(c, m.labels), p))
  }

  ghost function PlannedRounds(changes: seq<Change>, k: nat, n: DataNode): Result<DataNode>
    requires k <= |changes|
  {
    if k == 0 then Success(n)
    else
      match PlannedRounds(changes, k - 1, n)
      case Failure(code) => Failure(code)
      case Success(m) => PlannedRound(changes[k - 1], m)
  }

  lemma {:induction false} RefusedStays(changes: seq<Change>, k: nat, n: DataNode)
    requires k <= |changes| && PlannedRounds(changes, k, n).Failure?
    ensures PlannedRounds(changes, |changes|, n) == PlannedRounds(changes, k, n)
    decreases |changes| - k
  {
    if k < |changes| {
      RefusedStays(changes, k + 1, n);
    }
  }

  // One round of the loop.
  method MergeRound(c: Change, n: DataNode) returns (r: Result<DataNode>)
    requires Moving(c.renames)
    ensures r == PlannedRound(c, n)
  {
    if c.kind != NodeDefinition {
      return Success(n);
    }
    var labels := n.labels;
    if c.target != c.base && c.base in labels {
      if !c.keepsLabel {
        labels := labels - {c.base};
      }
      if c.target !in labels {
        labels := labels + {c.target};
      }
    }
    assert labels == Relabelled(c, n.labels);
    if c.target !in labels {
      return Success(n.(labels := labels));
    }
    var properties := ApplyDerivedPropertyRenames(n.properties, c.renames);
    if properties.Failure? {
      return Failure(properties.code);
    }
    return Success(DataNode(labels, properties.value));
  }

  // The loop over all changes; where PlannedApart holds, it does what the renames say.
  method MergeDerivedNode(changes: seq<Change>, n: DataNode) returns (r: Result<DataNode>)
    requires ValidChanges(changes)
    ensures r == PlannedRounds(changes, |changes|, n)
    ensures PlannedApart(changes) && Plannable(changes, n) ==> r.Success? && NodeGoal(changes, n, r.value)
  {
    if PlannedApart(changes) && Plannable(changes, n) {
      ApartPlannedReaches(changes, n);
    }
    r := MergeRounds(changes, n);
  }

  method MergeRounds(changes: seq<Change>, n: DataNode) returns (r: Result<DataNode>)
    requires ValidChanges(changes)
    ensures r == PlannedRounds(changes, |changes|, n)
  {
    var m := n;
    var k := 0;
    while k < |changes|
      invariant 0 <= k <= |changes| && PlannedRounds(changes, k, n) == Success(m)
    {
      assert Moving(changes[k].renames);
      r := MergeRound(changes[k], m);
      assert PlannedRounds(changes, k + 1, n) == r;
      if r.Failure? {
        RefusedStays(changes, k + 1, n);
        return;
      }
      m := r.value;
      k := k + 1;
    }
    return Success(m);
  }

  // ----- when it is what the renames say

  // A name that c only gives.
  ghost predicate OnlyGiven(c: Change, name: string) {
    name in c.renames.Values && name !in c.renames
  }

  // A shared old name has one new name, and no new name of c is an old name of d, except where no value
  // can stand under the old one.
  ghost predicate OldNameAgrees(c: Change, d: Change, x: string) {
    && (x in c.renames && x in d.renames ==> c.renames[x] == d.renames[x])
    && (x in c.renames && c.renames[x] in d.renames ==> OnlyGiven(d, x))
  }

  // No two old names share a new one, except where no value can stand under either.
  ghost predicate NewNamesDiffer(c: Change, d: Change, x: string, w: string) {
    x in c.renames && w in d.renames && x != w && c.renames[x] == d.renames[w] ==> OnlyGiven(d, x) && OnlyGiven(c, w)
  }

  // Two Definitions of one node, c handled first.
  ghost predicate NamesAgree(c: Change, d: Change) {
    && (forall x {:trigger OldNameAgrees(c, d, x)} :: OldNameAgrees(c, d, x))
    && (forall x, w {:trigger NewNamesDiffer(c, d, x, w)} :: NewNamesDiffer(c, d, x, w))
  }

  ghost predicate PlannedApart(changes: seq<Change>) {
    && LabelsUnchained(changes)
    && (forall i {:trigger changes[i]} :: 0 <= i < |changes| && changes[i].kind == NodeDefinition && Exposed(changes, i) ==> Descending(changes[i].renames))
    && forall i, j {:trigger changes[i], changes[j]} ::
         (0 <= i < j < |changes| && changes[i].kind == changes[j].kind == NodeDefinition && Exposed(changes, i) && Exposed(changes, j)) ==>
           NamesAgree(changes[i], changes[j])
  }

  // A node value whose labels pass the check and which holds nothing under a name that is only given.
  ghost predicate Plannable(changes: seq<Change>, n: DataNode) {
    && NodeSafe(changes, n)
    && forall i {:trigger changes[i]} :: 0 <= i < |changes| && On(changes[i], n) ==> TargetsFree(n.properties, changes[i].renames)
  }

  ghost predicate PlannedReaches(changes: seq<Change>, n: DataNode) {
    PlannedRounds(changes, |changes|, n).Success? && NodeGoal(changes, n, PlannedRounds(changes, |changes|, n).value)
  }

  ghost predicate AllPlannedReach(changes: seq<Change>) {
    forall n {:trigger Plannable(changes, n)} :: Plannable(changes, n) ==> PlannedReaches(changes, n)
  }

  // The same for the Definitions of one node.
  ghost predicate AgreeOn(changes: seq<Change>, n: DataNode) {
    && UnchainedNode(changes, n) && Plannable(changes, n)
    && (forall i {:trigger changes[i]} :: 0 <= i < |changes| && On(changes[i], n) ==> Descending(changes[i].renames))
    && forall i, j {:trigger changes[i], changes[j]} :: 0 <= i < j < |changes| && On(changes[i], n) && On(changes[j], n) ==>
         NamesAgree(changes[i], changes[j])
  }

  lemma ApartAgree(changes: seq<Change>, n: DataNode)
    requires ValidChanges(changes) && PlannedApart(changes) && Plannable(changes, n)
    ensures AgreeOn(changes, n)
  {
    forall i | 0 <= i < |changes| && On(changes[i], n) ensures Exposed(changes, i) {
      CoveredExposed(changes, n, i);
    }
  }

  // ----- labels and properties after some rounds

  // The labels after k changes.
  ghost predicate LabelsSo(changes: seq<Change>, n: DataNode, k: nat, labels: set<string>) {
    && k <= |changes|
    && forall l {:trigger l in labels} :: l in labels <==> LabelGiven(changes, n, k, l) || (l in n.labels && !LabelTaken(changes, n, k, l))
  }

  // The properties after k changes: under the new names, and under all others.
  ghost predicate NewNamesSo(changes: seq<Change>, n: DataNode, k: nat, p: Properties)
    requires k <= |changes|
  {
    forall i, x {:trigger x in changes[i].renames} :: 0 <= i < k && On(changes[i], n) && x in changes[i].renames ==>
      SameAt(p, changes[i].renames[x], n.properties, x)
  }

  ghost predicate OtherNamesSo(changes: seq<Change>, n: DataNode, k: nat, p: Properties)
    requires k <= |changes|
  {
    forall y {:trigger y in p} :: !NameGiven(changes, n, k, y) ==>
      if NameLeft(changes, n, k, y) then y !in p else SameAt(p, y, n.properties, y)
  }

  ghost predicate NamesSo(changes: seq<Change>, n: DataNode, k: nat, p: Properties) {
    k <= |changes| && NewNamesSo(changes, n, k, p) && OtherNamesSo(changes, n, k, p)
  }

  lemma CoveredStill(changes: seq<Change>, n: DataNode, k: nat, labels: set<string>)
    requires UnchainedNode(changes, n) && k < |changes| && changes[k].kind == NodeDefinition && LabelsSo(changes, n, k, labels)
    ensures changes[k].base in labels <==> changes[k].base in n.labels
    ensures !On(changes[k], n) ==> changes[k].target !in labels
  {
    var c := changes[k];
    BaseNotGiven(changes, n, k);
    assert !LabelTaken(changes, n, k, c.base);
    assert Renamed(c) ==> !Reached(c, n);
    assert c.base in labels <==> c.base in n.labels;
    assert !LabelGiven(changes, n, k, c.target);
    assert c.target in labels ==> c.target in n.labels;
  }

  lemma LabelsMore(changes: seq<Change>, n: DataNode, k: nat, labels: set<string>)
    requires UnchainedNode(changes, n) && k < |changes| && LabelsSo(changes, n, k, labels)
    ensures LabelsSo(changes, n, k + 1, if On(changes[k], n) then LabelsAfter(changes[k], labels) else labels)
  {
    var c, next := changes[k], if On(changes[k], n) then LabelsAfter(changes[k], labels) else labels;
    if On(c, n) {
      BaseNotGiven(changes, n, k);
      CoveredStill(changes, n, k, labels);
    }
    forall l ensures l in next <==> LabelGiven(changes, n, k + 1, l) || (l in n.labels && !LabelTaken(changes, n, k + 1, l)) {
      GivenMore(changes, n, k, l);
      TakenMore(changes, n, k, l);
      assert l in labels <==> LabelGiven(changes, n, k, l) || (l in n.labels && !LabelTaken(changes, n, k, l));
    }
  }

  lemma RelabelledMeans(changes: seq<Change>, n: DataNode, k: nat, labels: set<string>)
    requires UnchainedNode(changes, n) && k < |changes| && changes[k].kind == NodeDefinition && LabelsSo(changes, n, k, labels)
    ensures Relabelled(changes[k], labels) == if On(changes[k], n) then LabelsAfter(changes[k], labels) else labels
    ensures changes[k].target in Relabelled(changes[k], labels) <==> On(changes[k], n)
  {
    CoveredStill(changes, n, k, labels);
  }

  lemma OnlyGivenAbsent(changes: seq<Change>, n: DataNode, i: nat, name: string)
    requires Plannable(changes, n) && i < |changes| && On(changes[i], n) && OnlyGiven(changes[i], name)
    ensures name !in n.properties
  {
    assert TargetsFree(n.properties, changes[i].renames);
    assert changes[i].renames[SourceOf(changes[i].renames, name)] == name;
  }

  // An old name that an earlier Definition gave holds nothing.
  lemma GivenOldAbsent(changes: seq<Change>, n: DataNode, k: nat, p: Properties, w: string)
    requires AgreeOn(changes, n) && k < |changes| && On(changes[k], n) && NamesSo(changes, n, k, p)
    requires w in changes[k].renames && NameGiven(changes, n, k, w)
    ensures w !in p
  {
    var i :| 0 <= i < k && On(changes[i], n) && w in changes[i].renames.Values;
    var x := SourceOf(changes[i].renames, w);
    assert NamesAgree(changes[i], changes[k]) && OldNameAgrees(changes[i], changes[k], x);
    OnlyGivenAbsent(changes, n, k, x);
    assert SameAt(p, changes[i].renames[x], n.properties, x);
  }

  // An earlier Definition renames it too.
  ghost predicate OldBefore(changes: seq<Change>, n: DataNode, k: nat, w: string)
    requires k <= |changes|
  {
    exists i {:trigger changes[i]} :: 0 <= i < k && On(changes[i], n) && w in changes[i].renames
  }

  lemma OldLeft(changes: seq<Change>, n: DataNode, k: nat, w: string)
    requires k <= |changes| && OldBefore(changes, n, k, w) && !NameGiven(changes, n, k, w)
    ensures NameLeft(changes, n, k, w)
  {
    var i :| 0 <= i < k && On(changes[i], n) && w in changes[i].renames;
    assert w in Leftovers(changes[i].renames);
  }

  lemma OldAbsent(changes: seq<Change>, n: DataNode, k: nat, p: Properties, w: string)
    requires AgreeOn(changes, n) && k < |changes| && On(changes[k], n) && NamesSo(changes, n, k, p)
    requires w in changes[k].renames && OldBefore(changes, n, k, w)
    ensures w !in p
  {
    if NameGiven(changes, n, k, w) {
      GivenOldAbsent(changes, n, k, p, w);
    } else {
      OldLeft(changes, n, k, w);
    }
  }

  lemma OldUntouched(changes: seq<Change>, n: DataNode, k: nat, p: Properties, w: string)
    requires AgreeOn(changes, n) && k < |changes| && On(changes[k], n) && NamesSo(changes, n, k, p)
    requires w in changes[k].renames && !OldBefore(changes, n, k, w)
    ensures SameAt(p, w, n.properties, w)
  {
    if NameGiven(changes, n, k, w) {
      GivenOldAbsent(changes, n, k, p, w);
      var i :| 0 <= i < k && On(changes[i], n) && w in changes[i].renames.Values;
      OnlyGivenAbsent(changes, n, i, w);
    } else {
      assert !NameLeft(changes, n, k, w);
      assert w in p || w !in p;
    }
  }

  // A value that stands where another one is to move, and is not moved itself, comes from the same old name.
  lemma NewIsFree(changes: seq<Change>, n: DataNode, k: nat, p: Properties, w: string)
    requires AgreeOn(changes, n) && k < |changes| && On(changes[k], n) && NamesSo(changes, n, k, p)
    requires w in changes[k].renames && !OldBefore(changes, n, k, w) && changes[k].renames[w] !in changes[k].renames
    ensures changes[k].renames[w] !in p
  {
    var y := changes[k].renames[w];
    OnlyGivenAbsent(changes, n, k, y);
    if NameGiven(changes, n, k, y) {
      var i :| 0 <= i < k && On(changes[i], n) && y in changes[i].renames.Values;
      var x := SourceOf(changes[i].renames, y);
      assert x != w;
      assert NamesAgree(changes[i], changes[k]) && NewNamesDiffer(changes[i], changes[k], x, w);
      OnlyGivenAbsent(changes, n, k, x);
      assert SameAt(p, changes[i].renames[x], n.properties, x);
    } else {
      assert y in p ==> SameAt(p, y, n.properties, y);
    }
  }

  lemma FreeThere(changes: seq<Change>, n: DataNode, k: nat, p: Properties, names: seq<string>)
    requires AgreeOn(changes, n) && k < |changes| && On(changes[k], n) && NamesSo(changes, n, k, p)
    requires Listing(names, changes[k].renames) && Moving(changes[k].renames)
    ensures GivenUpFirst(names, changes[k].renames) && FreeForMoves(p, names, changes[k].renames)
  {
    var renames := changes[k].renames;
    DescendingOrder(names, renames);
    forall i | 0 <= i < |names| && names[i] in p && renames[names[i]] in p ensures renames[names[i]] in names[..i] {
      var w := names[i];
      if OldBefore(changes, n, k, w) {
        OldAbsent(changes, n, k, p, w);
      } else if renames[w] !in renames {
        NewIsFree(changes, n, k, p, w);
      } else {
        var j :| 0 <= j < |names| && names[j] == renames[w];
        assert j < i;
      }
    }
  }

  // A simultaneous renaming, name by name.
  lemma SimultaneousAt(p: Properties, renames: Renames, q: Properties, name: string)
    requires Moving(renames) && Simultaneous(p, renames, q)
    ensures name in renames ==> SameAt(q, renames[name], p, name)
    ensures name in Leftovers(renames) ==> name !in q
    ensures name !in renames && name !in renames.Values ==> SameAt(q, name, p, name)
  {
    if name in renames {
      var y := renames[name];
      assert y in q ==> HasAfter(p, renames, y, q[y]);
      assert name in p ==> HasAfter(p, renames, y, p[name]);
    }
    assert name in q ==> HasAfter(p, renames, name, q[name]);
    assert name in p && name !in renames && name !in renames.Values ==> HasAfter(p, renames, name, p[name]);
  }

  // What one round makes of the properties: the values that are there move at once.
  ghost predicate RoundMoves(c: Change, p: Properties, q: Properties) {
    Simultaneous(p, Present(p, NameList(c.renames), c.renames), q)
  }

  lemma MovesAt(c: Change, p: Properties, q: Properties, name: string)
    requires Moving(c.renames) && RoundMoves(c, p, q)
    ensures name in c.renames && name in p ==> SameAt(q, c.renames[name], p, name)
    ensures (forall u :: u in c.renames && u in p ==> c.renames[u] != name) ==>
              if name in c.renames && name in p then name !in q else SameAt(q, name, p, name)
  {
    var names := NameList(c.renames);
    var moving := Present(p, names, c.renames);
    assert forall n :: n in moving <==> n in c.renames && n in p;
    SimultaneousAt(p, moving, q, name);
  }

  // ----- one more round

  lemma NewHere(changes: seq<Change>, n: DataNode, k: nat, p: Properties, q: Properties, w: string)
    requires AgreeOn(changes, n) && k < |changes| && On(changes[k], n) && NamesSo(changes, n, k, p)
    requires Moving(changes[k].renames) && RoundMoves(changes[k], p, q) && w in changes[k].renames
    ensures SameAt(q, changes[k].renames[w], n.properties, w)
  {
    var y := changes[k].renames[w];
    MovesAt(changes[k], p, q, w);
    MovesAt(changes[k], p, q, y);
    if OldBefore(changes, n, k, w) {
      OldAbsent(changes, n, k, p, w);
      var i :| 0 <= i < k && On(changes[i], n) && w in changes[i].renames;
      assert NamesAgree(changes[i], changes[k]) && OldNameAgrees(changes[i], changes[k], w);
      assert SameAt(p, changes[i].renames[w], n.properties, w);
    } else {
      OldUntouched(changes, n, k, p, w);
      if w !in p && y !in changes[k].renames {
        NewIsFree(changes, n, k, p, w);
      }
    }
  }

  lemma EarlierNew(changes: seq<Change>, n: DataNode, k: nat, p: Properties, q: Properties, i: nat, x: string)
    requires AgreeOn(changes, n) && k < |changes| && On(changes[k], n) && NamesSo(changes, n, k, p)
    requires Moving(changes[k].renames) && RoundMoves(changes[k], p, q) && i < k && On(changes[i], n) && x in changes[i].renames
    ensures SameAt(q, changes[i].renames[x], n.properties, x)
  {
    var c, d, y := changes[i], changes[k], changes[i].renames[x];
    assert NamesAgree(c, d);
    assert SameAt(p, c.renames[x], n.properties, x);
    forall w | w in d.renames && w in p ensures d.renames[w] != y {
      if OldBefore(changes, n, k, w) {
        OldAbsent(changes, n, k, p, w);
      } else if NameGiven(changes, n, k, w) {
        GivenOldAbsent(changes, n, k, p, w);
      }
      assert NewNamesDiffer(c, d, x, w);
      assert w != x && w !in c.renames.Values;
    }
    if y in d.renames {
      assert NameGiven(changes, n, k, y);
      GivenOldAbsent(changes, n, k, p, y);
    }
    MovesAt(d, p, q, y);
  }

  lemma OtherNow(changes: seq<Change>, n: DataNode, k: nat, p: Properties, q: Properties, y: string)
    requires k < |changes| && On(changes[k], n) && NamesSo(changes, n, k, p)
    requires Moving(changes[k].renames) && RoundMoves(changes[k], p, q) && !NameGiven(changes, n, k + 1, y)
    ensures if NameLeft(changes, n, k + 1, y) then y !in q else SameAt(q, y, n.properties, y)
  {
    GivenMore(changes, n, k, y);
    TakenMore(changes, n, k, y);
    forall u | u in changes[k].renames && u in p ensures changes[k].renames[u] != y {
    }
    MovesAt(changes[k], p, q, y);
    assert y in p || y !in p;
  }

  lemma NewNameMore(changes: seq<Change>, n: DataNode, k: nat, p: Properties, q: Properties, i: nat, x: string)
    requires AgreeOn(changes, n) && k < |changes| && On(changes[k], n) && NamesSo(changes, n, k, p)
    requires Moving(changes[k].renames) && RoundMoves(changes[k], p, q) && i <= k && On(changes[i], n) && x in changes[i].renames
    ensures SameAt(q, changes[i].renames[x], n.properties, x)
  {
    if i < k {
      EarlierNew(changes, n, k, p, q, i, x);
    } else {
      NewHere(changes, n, k, p, q, x);
    }
  }

  lemma NewNamesMore(changes: seq<Change>, n: DataNode, k: nat, p: Properties, q: Properties)
    requires AgreeOn(changes, n) && k < |changes| && On(changes[k], n) && NamesSo(changes, n, k, p)
    requires Moving(changes[k].renames) && RoundMoves(changes[k], p, q)
    ensures NewNamesSo(changes, n, k + 1, q)
  {
    forall i, x | 0 <= i < k + 1 && On(changes[i], n) && x in changes[i].renames ensures SameAt(q, changes[i].renames[x], n.properties, x) {
      NewNameMore(changes, n, k, p, q, i, x);
    }
  }

  lemma OtherNamesMore(changes: seq<Change>, n: DataNode, k: nat, p: Properties, q: Properties)
    requires k < |changes| && On(changes[k], n) && NamesSo(changes, n, k, p)
    requires Moving(changes[k].renames) && RoundMoves(changes[k], p, q)
    ensures OtherNamesSo(changes, n, k + 1, q)
  {
    forall y | !NameGiven(changes, n, k + 1, y)
      ensures if NameLeft(changes, n, k + 1, y) then y !in q else SameAt(q, y, n.properties, y)
    {
      OtherNow(changes, n, k, p, q, y);
    }
  }

  lemma NamesMore(changes: seq<Change>, n: DataNode, k: nat, p: Properties, q: Properties)
    requires AgreeOn(changes, n) && k < |changes| && On(changes[k], n) && NamesSo(changes, n, k, p)
    requires Moving(changes[k].renames) && RoundMoves(changes[k], p, q)
    ensures NamesSo(changes, n, k + 1, q)
  {
    NewNamesMore(changes, n, k, p, q);
    OtherNamesMore(changes, n, k, p, q);
  }

  lemma NamesSkip(changes: seq<Change>, n: DataNode, k: nat, p: Properties)
    requires k < |changes| && !On(changes[k], n) && NamesSo(changes, n, k, p)
    ensures NamesSo(changes, n, k + 1, p)
  {
    forall y | !NameGiven(changes, n, k + 1, y)
      ensures if NameLeft(changes, n, k + 1, y) then y !in p else SameAt(p, y, n.properties, y)
    {
      GivenMore(changes, n, k, y);
      TakenMore(changes, n, k, y);
      assert y in p || y !in p;
    }
  }

  // ----- all rounds

  ghost predicate PlannedSo(changes: seq<Change>, n: DataNode, k: nat, r: Result<DataNode>) {
    r.Success? && LabelsSo(changes, n, k, r.value.labels) && NamesSo(changes, n, k, r.value.properties)
  }

  lemma RoundSo(changes: seq<Change>, n: DataNode, k: nat, m: DataNode)
    requires AgreeOn(changes, n) && k < |changes| && PlannedSo(changes, n, k, Success(m))
    ensures PlannedSo(changes, n, k + 1, PlannedRound(changes[k], m))
  {
    var c := changes[k];
    LabelsMore(changes, n, k, m.labels);
    if c.kind == NodeDefinition {
      RelabelledMeans(changes, n, k, m.labels);
    }
    if On(c, n) {
      var names := NameList(c.renames);
      assert Moving(c.renames);
      FreeThere(changes, n, k, m.properties, names);
      PresentAtOnce(m.properties, names, c.renames);
      NamesMore(changes, n, k, m.properties, Moved(m.properties, names, c.renames).value);
    } else {
      NamesSkip(changes, n, k, m.properties);
    }
  }

  lemma NothingPlanned(changes: seq<Change>, n: DataNode)
    ensures PlannedSo(changes, n, 0, Success(n))
  {
    forall y ensures SameAt(n.properties, y, n.properties, y) {
    }
  }

  ghost predicate RoundsReach(changes: seq<Change>, n: DataNode, k: nat, m: DataNode) {
    k <= |changes| && PlannedRounds(changes, k, n) == Success(m) && PlannedSo(changes, n, k, Success(m))
  }

  lemma {:induction false} RoundsSo(changes: seq<Change>, n: DataNode, k: nat) returns (m: DataNode)
    requires AgreeOn(changes, n) && k <= |changes|
    ensures RoundsReach(changes, n, k, m)
  {
    if k == 0 {
      NothingPlanned(changes, n);
      m := n;
    } else {
      var before := RoundsSo(changes, n, k - 1);
      m := NextSo(changes, n, k - 1, before);
    }
  }

  lemma NextSo(changes: seq<Change>, n: DataNode, k: nat, m: DataNode) returns (next: DataNode)
    requires AgreeOn(changes, n) && k < |changes| && RoundsReach(changes, n, k, m)
    ensures RoundsReach(changes, n, k + 1, next)
  {
    RoundSo(changes, n, k, m);
    next := PlannedRound(changes[k], m).value;
  }

  lemma AllPlanned(changes: seq<Change>, n: DataNode, m: DataNode)
    requires PlannedSo(changes, n, |changes|, Success(m))
    ensures NodeGoal(changes, n, m)
  {
    forall y | !NameGiven(changes, n, |changes|, y)
      ensures if NameLeft(changes, n, |changes|, y) then y !in m.properties else SameAt(m.properties, y, n.properties, y)
    {
      assert y in m.properties || y !in m.properties;
    }
  }

  lemma ApartPlannedReaches(changes: seq<Change>, n: DataNode)
    requires ValidChanges(changes) && PlannedApart(changes) && Plannable(changes, n)
    ensures PlannedReaches(changes, n)
  {
    ApartAgree(changes, n);
    var m := RoundsSo(changes, n, |changes|);
    AllPlanned(changes, n, m);
  }

  // ----- where it is not: a lone value

  function Place(c: Change, x: string): string {
    if x in c.renames then c.renames[x] else x
  }

  lemma UncoveredRound(changes: seq<Change>, n: DataNode, k: nat, m: DataNode)
    requires UnchainedNode(changes, n) && k < |changes| && !On(changes[k], n) && LabelsSo(changes, n, k, m.labels)
    ensures PlannedRound(changes[k], m) == Success(m) && LabelsSo(changes, n, k + 1, m.labels)
  {
    LabelsMore(changes, n, k, m.labels);
    if changes[k].kind == NodeDefinition {
      RelabelledMeans(changes, n, k, m.labels);
    }
  }

  lemma {:induction false} UncoveredRounds(changes: seq<Change>, n: DataNode, from: nat, k: nat, m: DataNode)
    requires UnchainedNode(changes, n) && from <= k <= |changes| && forall t :: from <= t < k ==> !On(changes[t], n)
    requires PlannedRounds(changes, from, n) == Success(m) && LabelsSo(changes, n, from, m.labels)
    ensures PlannedRounds(changes, k, n) == Success(m) && LabelsSo(changes, n, k, m.labels)
  {
    if from < k {
      UncoveredRounds(changes, n, from, k - 1, m);
      UncoveredRound(changes, n, k - 1, m);
    }
  }

  // A covering round moves the values one after the other.
  lemma CoveredRound(changes: seq<Change>, n: DataNode, k: nat, m: DataNode, q: Properties)
    requires UnchainedNode(changes, n) && k < |changes| && On(changes[k], n) && LabelsSo(changes, n, k, m.labels)
    requires Moved(m.properties, NameList(changes[k].renames), changes[k].renames) == Success(q)
    ensures PlannedRound(changes[k], m) == Success(DataNode(Relabelled(changes[k], m.labels), q))
    ensures LabelsSo(changes, n, k + 1, Relabelled(changes[k], m.labels))
  {
    LabelsMore(changes, n, k, m.labels);
    RelabelledMeans(changes, n, k, m.labels);
  }

  lemma LoneRound(c: Change, x: string, value: string)
    requires Moving(c.renames) && Descending(c.renames)
    ensures Moved(map[x := value], NameList(c.renames), c.renames) == Success(map[Place(c, x) := value])
  {
    var names := NameList(c.renames);
    DescendingOrder(names, c.renames);
    LoneMoved(x, value, names, c.renames);
  }

  ghost predicate OnlyUnderTwo(changes: seq<Change>, n: DataNode, i: nat, j: nat) {
    i < j < |changes| && forall k :: 0 <= k < |changes| ==> (On(changes[k], n) <==> k == i || k == j)
  }

  lemma LoneHalfWay(changes: seq<Change>, n: DataNode, i: nat, j: nat, x: string, value: string) returns (m: DataNode)
    requires UnchainedNode(changes, n) && n.properties == map[x := value] && OnlyUnderTwo(changes, n, i, j) && Descending(changes[i].renames)
    ensures PlannedRounds(changes, j, n) == Success(m) && LabelsSo(changes, n, j, m.labels) && m.properties == map[Place(changes[i], x) := value]
  {
    NothingPlanned(changes, n);
    UncoveredRounds(changes, n, 0, i, n);
    m := LoneStep(changes, n, i, n, x, value);
    UncoveredRounds(changes, n, i + 1, j, m);
  }

  // The node under two Definitions: its value is moved by the one, then by the other.
  lemma LonePlaced(changes: seq<Change>, n: DataNode, i: nat, j: nat, x: string, value: string)
    requires UnchainedNode(changes, n) && n.properties == map[x := value] && OnlyUnderTwo(changes, n, i, j)
    requires Descending(changes[i].renames) && Descending(changes[j].renames)
    ensures PlannedRounds(changes, |changes|, n).Success?
    ensures PlannedRounds(changes, |changes|, n).value.properties == map[Place(changes[j], Place(changes[i], x)) := value]
  {
    var one := LoneHalfWay(changes, n, i, j, x, value);
    var two := LoneStep(changes, n, j, one, Place(changes[i], x), value);
    UncoveredRounds(changes, n, j + 1, |changes|, two);
  }

  lemma LoneStep(changes: seq<Change>, n: DataNode, k: nat, m: DataNode, x: string, value: string) returns (next: DataNode)
    requires UnchainedNode(changes, n) && k < |changes| && On(changes[k], n) && Descending(changes[k].renames)
    requires PlannedRounds(changes, k, n) == Success(m) && LabelsSo(changes, n, k, m.labels) && m.properties == map[x := value]
    ensures PlannedRounds(changes, k + 1, n) == Success(next) && LabelsSo(changes, n, k + 1, next.labels)
    ensures next.properties == map[Place(changes[k], x) := value]
  {
    var q := map[Place(changes[k], x) := value];
    assert Moving(changes[k].renames);
    LoneRound(changes[k], x, value);
    CoveredRound(changes, n, k, m, q);
    next := DataNode(Relabelled(changes[k], m.labels), q);
  }

  // x's value, having come to z, is where c and d say, and nothing else is.
  ghost predicate LoneGoal(c: Change, x: string, z: string) {
    && (x in c.renames ==> c.renames[x] == z)
    && forall u {:trigger u in c.renames} :: u in c.renames && u != x ==> c.renames[u] != z
  }

  lemma GoalIsLone(changes: seq<Change>, n: DataNode, m: DataNode, i: nat, x: string, value: string, z: string)
    requires NodeGoal(changes, n, m) && i < |changes| && On(changes[i], n) && n.properties == map[x := value] && m.properties == map[z := value]
    ensures LoneGoal(changes[i], x, z)
  {
    forall u | u in changes[i].renames ensures SameAt(m.properties, changes[i].renames[u], n.properties, u) {
    }
  }

  // Of two Definitions that do not agree, a name whose lone value goes astray.
  lemma Disagreement(c: Change, d: Change) returns (x: string)
    requires Moving(c.renames) && Moving(d.renames) && !NamesAgree(c, d)
    ensures !OnlyGiven(c, x) && !OnlyGiven(d, x)
    ensures var z := Place(d, Place(c, x)); !LoneGoal(c, x, z) || !LoneGoal(d, x, z)
  {
    if o :| !OldNameAgrees(c, d, o) {
      x := o;
    } else {
      var a, w :| !NewNamesDiffer(c, d, a, w);
      x := if OnlyGiven(d, a) then w else a;
      assert c.renames[a] == d.renames[w] && a != w;
      if OnlyGiven(d, a) {
        assert w in c.renames ==> c.renames[w] != c.renames[a];
      }
    }
  }

  lemma LoneIsPlannable(c: Change, x: string, value: string)
    requires !OnlyGiven(c, x)
    ensures TargetsFree(map[x := value], c.renames)
  {
  }

  lemma DisagreementShows(changes: seq<Change>, i: nat, j: nat) returns (n: DataNode)
    requires ValidChanges(changes) && LabelsUnchained(changes)
    requires i < j < |changes| && changes[i].kind == NodeDefinition && changes[j].kind == NodeDefinition && Exposed(changes, i) && Exposed(changes, j)
    requires Descending(changes[i].renames) && Descending(changes[j].renames) && !NamesAgree(changes[i], changes[j])
    ensures Plannable(changes, n) && !PlannedReaches(changes, n)
  {
    var x := Disagreement(changes[i], changes[j]);
    n := Shared(changes[i], changes[j], x);
    SharedIsSafe(changes, i, j, x);
    OnlyTheTwo(changes, i, j, x);
    LoneIsPlannable(changes[i], x, "value");
    LoneIsPlannable(changes[j], x, "value");
    LonePlaced(changes, n, i, j, x, "value");
    var m, z := PlannedRounds(changes, |changes|, n).value, Place(changes[j], Place(changes[i], x));
    if NodeGoal(changes, n, m) {
      GoalIsLone(changes, n, m, i, x, "value", z);
      GoalIsLone(changes, n, m, j, x, "value", z);
    }
  }

  // A node under one Definition.
  function Single(c: Change, p: Properties): DataNode {
    DataNode({c.base}, p)
  }

  lemma SingleIsSafe(changes: seq<Change>, i: nat, p: Properties)
    requires ValidChanges(changes) && i < |changes| && changes[i].kind == NodeDefinition && Exposed(changes, i)
    ensures NodeSafe(changes, Single(changes[i], p))
    ensures forall k :: 0 <= k < |changes| ==> (On(changes[k], Single(changes[i], p)) <==> k == i)
  {
    forall k | 0 <= k < |changes| && Renamed(changes[k]) ensures !Reached(changes[k], Single(changes[i], p)) {
      assert !Reuses(changes[k], changes[i]);
    }
  }

  // Along an ascending chain the value moves on.
  lemma AscentShows(changes: seq<Change>, i: nat) returns (n: DataNode)
    requires ValidChanges(changes) && LabelsUnchained(changes)
    requires i < |changes| && changes[i].kind == NodeDefinition && Exposed(changes, i) && !Descending(changes[i].renames)
    ensures Plannable(changes, n) && !PlannedReaches(changes, n)
  {
    var c := changes[i];
    var names := NameList(c.renames);
    assert Moving(c.renames);
    DescendingOrder(names, c.renames);
    var a, b :| 0 <= a < |names| && 0 <= b < |names| && c.renames[names[a]] == names[b] && !(b < a);
    var p := map[names[a] := ""];
    TakenTooEarly(names, c.renames, a, b);
    n := Single(c, p);
    SingleIsSafe(changes, i, p);
    var q := Moved(p, names, c.renames).value;
    NothingPlanned(changes, n);
    UncoveredRounds(changes, n, 0, i, n);
    CoveredRound(changes, n, i, n, q);
    UncoveredRounds(changes, n, i + 1, |changes|, DataNode(Relabelled(c, n.labels), q));
    MissesNew(changes, n, PlannedRounds(changes, |changes|, n).value, i, names[a]);
  }

  lemma MissesNew(changes: seq<Change>, n: DataNode, m: DataNode, i: nat, x: string)
    requires i < |changes| && On(changes[i], n) && x in changes[i].renames && x in n.properties && changes[i].renames[x] !in m.properties
    ensures !NodeGoal(changes, n, m)
  {
    assert !SameAt(m.properties, changes[i].renames[x], n.properties, x);
  }

  // ----- where it is not: a label chain

  lemma {:induction false} NoNames(names: seq<string>, renames: Renames)
    requires forall n :: n in names ==> n in renames
    ensures Moved(map[], names, renames) == Success(map[])
    decreases |names|
  {
    if names != [] {
      NoNames(names[1..], renames);
    }
  }

  lemma EmptyRound(c: Change, labels: set<string>)
    ensures PlannedRound(c, DataNode(labels, map[])) == Success(DataNode(if c.kind == NodeDefinition then Relabelled(c, labels) else labels, map[]))
  {
    NoNames(NameList(c.renames), c.renames);
  }

  // An empty node under the first Definition keeps its label until it is handled, then has the new one
  // until the second takes it on, and from there on some label further along.
  ghost predicate OnTheWay(changes: seq<Change>, i: nat, j: nat, k: nat, labels: set<string>)
    requires i < j < |changes| && k <= |changes|
  {
    if k <= i then changes[i].base in labels
    else if k <= j then changes[i].target in labels
    else exists t {:trigger changes[t]} :: i < t < k && changes[t].kind == NodeDefinition && Renamed(changes[t]) && changes[t].target in labels
  }

  lemma OneFurther(changes: seq<Change>, i: nat, j: nat, k: nat, labels: set<string>)
    requires ValidChanges(changes) && i < j < |changes| && changes[i].kind == NodeDefinition && Reuses(changes[i], changes[j])
    requires k < |changes| && OnTheWay(changes, i, j, k, labels)
    ensures OnTheWay(changes, i, j, k + 1, if changes[k].kind == NodeDefinition then Relabelled(changes[k], labels) else labels)
  {
    var c, next := changes[k], if changes[k].kind == NodeDefinition then Relabelled(changes[k], labels) else labels;
    if k > j {
      var t :| i < t < k && changes[t].kind == NodeDefinition && Renamed(changes[t]) && changes[t].target in labels;
      if changes[t].target !in next {
        assert Renamed(c) && c.target in next && i < k;
      } else {
        assert i < t < k + 1;
      }
    } else if k == j {
      assert c.target in next && i < k;
    }
  }

  lemma {:induction false} ChainRounds(changes: seq<Change>, i: nat, j: nat, k: nat) returns (labels: set<string>)
    requires ValidChanges(changes) && i < j < |changes| && changes[i].kind == NodeDefinition && Reuses(changes[i], changes[j]) && k <= |changes|
    ensures PlannedRounds(changes, k, Single(changes[i], map[])) == Success(DataNode(labels, map[])) && OnTheWay(changes, i, j, k, labels)
  {
    if k == 0 {
      labels := {changes[i].base};
    } else {
      var before := ChainRounds(changes, i, j, k - 1);
      labels := if changes[k - 1].kind == NodeDefinition then Relabelled(changes[k - 1], before) else before;
      EmptyRound(changes[k - 1], before);
      OneFurther(changes, i, j, k - 1, before);
    }
  }

  lemma ChainShows(changes: seq<Change>, i: nat, j: nat) returns (n: DataNode)
    requires ValidChanges(changes) && i < j < |changes| && changes[i].kind == NodeDefinition && Exposed(changes, i) && Reuses(changes[i], changes[j])
    ensures Plannable(changes, n) && !PlannedReaches(changes, n)
  {
    n := Single(changes[i], map[]);
    SingleIsSafe(changes, i, map[]);
    var labels := ChainRounds(changes, i, j, |changes|);
    var t :| i < t < |changes| && changes[t].kind == NodeDefinition && Renamed(changes[t]) && changes[t].target in labels;
    assert !LabelGiven(changes, n, |changes|, changes[t].target);
    assert !Reached(changes[t], n);
  }

  // ----- the exact condition

  // Every plannable node ends as all the renames say exactly when no label is chained into one handled later,
  // no Definition's renames ascend, and the Definitions that can share a node agree.
  lemma PlannedNodesExact(changes: seq<Change>)
    requires ValidChanges(changes)
    ensures PlannedApart(changes) <==> AllPlannedReach(changes)
  {
    if PlannedApart(changes) {
      forall n | Plannable(changes, n) ensures PlannedReaches(changes, n) {
        ApartPlannedReaches(changes, n);
      }
    } else if !LabelsUnchained(changes) {
      var i, j :| 0 <= i < j < |changes| && changes[i].kind == NodeDefinition && Exposed(changes, i) && Reuses(changes[i], changes[j]);
      var n := ChainShows(changes, i, j);
    } else if i :| 0 <= i < |changes| && changes[i].kind == NodeDefinition && Exposed(changes, i) && !Descending(changes[i].renames) {
      var n := AscentShows(changes, i);
    } else {
      var i, j :| 0 <= i < j < |changes| && changes[i].kind == changes[j].kind == NodeDefinition && Exposed(changes, i) && Exposed(changes, j)
                  && !NamesAgree(changes[i], changes[j]);
      var n := DisagreementShows(changes, i, j);
    }
  }

  ghost predicate AgreeAt(a: DataNode, b: DataNode, y: string) {
    (y in a.labels <==> y in b.labels) && SameAt(a.properties, y, b.properties, y)
  }

  lemma AgreedNodes(a: DataNode, b: DataNode)
    requires forall y :: AgreeAt(a, b, y)
    ensures a == b
  {
    forall y ensures (y in a.labels <==> y in b.labels) && (y in a.properties <==> y in b.properties) && (y in a.properties ==> a.properties[y] == b.properties[y]) {
      assert AgreeAt(a, b, y);
    }
    assert a.labels == b.labels;
    assert a.properties == b.properties;
  }

  lemma GoalAt(changes: seq<Change>, n: DataNode, a: DataNode, b: DataNode, y: string)
    requires NodeGoal(changes, n, a) && NodeGoal(changes, n, b)
    ensures AgreeAt(a, b, y)
  {
    assert y in a.labels <==> LabelGiven(changes, n, |changes|, y) || (y in n.labels && !LabelTaken(changes, n, |changes|, y));
    assert y in b.labels <==> LabelGiven(changes, n, |changes|, y) || (y in n.labels && !LabelTaken(changes, n, |changes|, y));
    if NameGiven(changes, n, |changes|, y) {
      var i :| 0 <= i < |changes| && On(changes[i], n) && y in changes[i].renames.Values;
      var x := SourceOf(changes[i].renames, y);
      assert SameAt(a.properties, changes[i].renames[x], n.properties, x);
      assert SameAt(b.properties, changes[i].renames[x], n.properties, x);
    } else {
      assert y in a.properties || y !in a.properties;
      assert y in b.properties || y !in b.properties;
    }
  }

  lemma GoalUnique(changes: seq<Change>, n: DataNode, a: DataNode, b: DataNode)
    requires NodeGoal(changes, n, a) && NodeGoal(changes, n, b)
    ensures a == b
  {
    forall y ensures AgreeAt(a, b, y) {
      GoalAt(changes, n, a, b, y);
    }
    AgreedNodes(a, b);
  }

  // Where both conditions hold a planned node has the fate of the stored one.
  lemma PlannedAsStored(changes: seq<Change>, n: DataNode)
    requires ValidChanges(changes) && PlannedApart(changes) && NodesApart(changes) && Plannable(changes, n)
    ensures PlannedRounds(changes, |changes|, n) == Success(NodeFate(changes, n))
  {
    PlannedNodesExact(changes);
    NodeRenamesExact(changes);
    GoalUnique(changes, n, PlannedRounds(changes, |changes|, n).value, NodeFate(changes, n));
  }
}

// A plan under which a planned node and the stored one end differently.
module SplitRename {
  import opened Outcomes
  import opened Model
  import opened CompilerFacts
  import opened RenameFacts
  import opened RenameFates
  import opened RenameSafety
  import opened NodeOverlaps
  import opened RenameGaps
  import opened OverlapExamples
  import opened DerivedRenames
  import opened DerivedNodes
  import RM = RenameMaintenance

  const FirstSplit: map<string, string> := map["y" := "x"]
  const SecondSplit: map<string, string> := map["w" := "x"]

  // A renames x to y, B renames x to w.
  function SplitPlan(): Plan {
    TwoDefinitions(WithProperties("A", [Named("x")]), WithProperties("A", [Named("y")]), FirstSplit,
                   WithProperties("B", [Named("x")]), WithProperties("B", [Named("w")]), SecondSplit)
  }

  function SplitChanges(): seq<Change> {
    [Unrenamed(A, map["x" := "y"]), Unrenamed(B, map["x" := "w"])]
  }

  lemma SplitPlanned()
    ensures RM.BasesApart(SplitPlan()) && RM.Continues(SplitPlan(), Both) && RM.ChangesOf(SplitPlan(), Both, [A, B], SplitChanges())
  {
    assert "x" != "y" && "x" != "w";
    TheirChanges(WithProperties("A", [Named("x")]), WithProperties("A", [Named("y")]), FirstSplit, map["x" := "y"],
                 WithProperties("B", [Named("x")]), WithProperties("B", [Named("w")]), SecondSplit, map["x" := "w"]);
  }

  lemma SplitValid()
    ensures ValidPlan(SplitPlan())
  {
    OnlyProperty("x");
    TwoValid(WithProperties("A", [Named("x")]), WithProperties("A", [Named("y")]), FirstSplit,
             WithProperties("B", [Named("x")]), WithProperties("B", [Named("w")]), SecondSplit);
  }

  lemma SplitSafe()
    ensures SafeData(BothHold(A, B, "x"), SplitPlan(), Both)
  {
    var plan, d := SplitPlan(), BothHold(A, B, "x");
    OnlyProperty("x");
    NoneTakenOver(plan, A);
    NoneTakenOver(plan, B);
    assert "x" != "y" && "x" != "w";
    forall r ensures SafeDefinition(d, plan, Both, r) {
      if r == A {
        OneMoveSafe(plan, A, B, "x", "x", "y");
      } else if r == B {
        assert d.nodes[0].labels == {"B", "A"};
        OneMoveSafe(plan, B, A, "x", "x", "w");
      } else {
        ThirdIsSafe(plan, Both, A, B, "x", r);
      }
    }
  }

  // Two changes that rename one old name to two new ones.
  lemma SplitEnds(changes: seq<Change>, n: DataNode, x: string, y: string, w: string)
    requires |changes| == 2 && ValidChanges(changes) && x != y && x != w && y != w
    requires changes[0] == Unrenamed(A, map[x := y]) && changes[1] == Unrenamed(B, map[x := w])
    requires n == DataNode({"A", "B"}, map[x := "value"])
    ensures NodesApart(changes) && Plannable(changes, n) && !NamesAgree(changes[0], changes[1])
    ensures var r := PlannedRounds(changes, 2, n); r.Success? && r.value.properties == map[y := "value"]
    ensures NodeGoal(changes, n, NodeFate(changes, n)) && y in NodeFate(changes, n).properties && w in NodeFate(changes, n).properties
  {
    var c, d := changes[0], changes[1];
    assert c.renames[x] == y && d.renames[x] == w;
    assert !OldNameAgrees(c, d, x);
    assert !Interfere(c, d);
    assert NodesApart(changes);
    NodeRenamesExact(changes);
    assert On(c, n) && On(d, n);
    LonePlaced(changes, n, 0, 1, x, "value");
    assert SameAt(NodeFate(changes, n).properties, c.renames[x], n.properties, x);
    assert SameAt(NodeFate(changes, n).properties, d.renames[x], n.properties, x);
  }

  // The stored node has the value under both new names; a planned one under A's alone.
  lemma PlannedLosesSecondName()
    ensures ValidPlan(SplitPlan()) && SafeData(BothHold(A, B, "x"), SplitPlan(), Both)
    ensures RM.ChangesOf(SplitPlan(), Both, [A, B], SplitChanges())
    ensures var n := BothHold(A, B, "x").nodes[0];
            && Plannable(SplitChanges(), n)
            && PlannedRounds(SplitChanges(), 2, n).Success? && PlannedRounds(SplitChanges(), 2, n).value.properties == map["y" := "value"]
            && "y" in NodeFate(SplitChanges(), n).properties && "w" in NodeFate(SplitChanges(), n).properties
  {
    SplitPlanned();
    SplitValid();
    SplitSafe();
    RM.ChangesAreValid(SplitPlan(), Both, [A, B], SplitChanges());
    assert "x" != "y" && "x" != "w" && "y" != "w";
    SplitEnds(SplitChanges(), BothHold(A, B, "x").nodes[0], "x", "y", "w");
  }
}
