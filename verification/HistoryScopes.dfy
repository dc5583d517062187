// What the scopes of a history select (filterEvolutionChanges, internal/kernel/evolution_diff.go), told
// from the kinds and identities of the changes alone.

module HistoryScopes {
  import opened Outcomes
  import opened Text
  import opened Sorting
  import opened Model
  import opened ChangeOrder
  import opened History

  const OntologyKinds: set<Kind> := {DomainKind, NodeDefinition, RelationshipDefinition}
  const KnowledgeKinds: set<Kind> := {KnowledgeNode, KnowledgeRelationship}

  function KindsOf(scope: string): set<Kind> {
    if scope == "ontology" then OntologyKinds
    else if scope == "knowledge" then KnowledgeKinds
    else OntologyKinds + KnowledgeKinds
  }

  // ----- one change

  // Every change is listed under exactly one of the two scopes, by its kind, and under "all".
  lemma OneScopeEach(change: Change, anchor: string)
    ensures InScope(change, "ontology", anchor) <==> change.public.kind == DomainKind || IsDefinition(change.public.kind)
    ensures InScope(change, "knowledge", anchor) <==> change.public.kind == KnowledgeNode || change.public.kind == KnowledgeRelationship
    ensures InScope(change, "ontology", anchor) <==> !InScope(change, "knowledge", anchor)
    ensures InScope(change, "all", anchor)
  {
  }

  // Under "object" a change is listed exactly when the anchor is one of its identities.
  lemma AnchorAmongIdentities(change: Change, identities: seq<string>, anchor: string)
    requires identities != [] && (forall i :: 0 <= i < |identities| ==> NUL !in identities[i]) && NUL !in anchor
    requires change.identity == Join(identities, NUL)
    ensures InScope(change, "object", anchor) <==> anchor in identities
  {
    SplitJoin(identities, NUL);
    if change.identity == anchor {
      SplitPrepend(anchor, "", NUL);
      assert anchor + "" == anchor;
      assert Split(anchor, NUL) == [anchor];
    }
  }

  // ----- the changes of one commit

  // Those of these kinds, in the same order.
  function Only(changes: seq<PublicChange>, kinds: set<Kind>): seq<PublicChange> {
    if changes == [] then []
    else (if changes[0].kind in kinds then [changes[0]] else []) + Only(changes[1..], kinds)
  }

  function Publics(changes: seq<Change>): seq<PublicChange> {
    if changes == [] then [] else [changes[0].public] + Publics(changes[1..])
  }

  lemma {:induction false} OnlyCounts(changes: seq<PublicChange>, kinds: set<Kind>, p: PublicChange)
    ensures multiset(Only(changes, kinds))[p] == if p.kind in kinds then multiset(changes)[p] else 0
  {
    if changes != [] {
      OnlyCounts(changes[1..], kinds, p);
      assert changes == [changes[0]] + changes[1..];
    }
  }

  lemma {:induction false} OnlyOrdered(changes: seq<PublicChange>, kinds: set<Kind>)
    requires Ordered(changes, Key)
    ensures Ordered(Only(changes, kinds), Key) && forall p :: p in Only(changes, kinds) ==> p in changes && p.kind in kinds
  {
    if changes != [] {
      OnlyOrdered(changes[1..], kinds);
      var rest := Only(changes[1..], kinds);
      forall j | 0 <= j < |rest| ensures LexLe(Key(changes[0]), Key(rest[j])) {
        assert rest[j] in changes[1..];
        var k :| 0 <= k < |changes[1..]| && changes[1..][k] == rest[j];
        assert changes[k + 1] == rest[j];
      }
    }
  }

  lemma {:induction false} SelectedIsOnly(changes: seq<Change>, scope: string, anchor: string)
    requires scope == "ontology" || scope == "knowledge" || scope == "all"
    ensures Selected(changes, scope, anchor) == Only(Publics(changes), KindsOf(scope))
  {
    if changes != [] {
      SelectedIsOnly(changes[1..], scope, anchor);
      OneScopeEach(changes[0], anchor);
      assert Publics(changes)[1..] == Publics(changes[1..]);
    }
  }

  lemma EveryKind(kind: Kind)
    ensures kind in OntologyKinds + KnowledgeKinds
  {
    match kind
    case DomainKind =>
    case NodeDefinition =>
    case RelationshipDefinition =>
    case KnowledgeNode =>
    case KnowledgeRelationship =>
  }

  lemma {:induction false} OnlyAll(changes: seq<PublicChange>)
    ensures Only(changes, OntologyKinds + KnowledgeKinds) == changes
  {
    if changes != [] {
      EveryKind(changes[0].kind);
      OnlyAll(changes[1..]);
      assert changes == [changes[0]] + changes[1..];
    }
  }

  // Choosing and putting in order may change places.
  lemma OnlyThenOrdered(changes: seq<PublicChange>, kinds: set<Kind>)
    requires forall p :: p in changes ==> WellFormed(p)
    ensures Canonical(Only(changes, kinds)) == Only(Canonical(changes), kinds)
  {
    var ordered := Canonical(changes);
    SortedOrdered(changes, Key);
    OnlyOrdered(ordered, kinds);
    forall p ensures multiset(Only(ordered, kinds))[p] == multiset(Only(changes, kinds))[p] {
      OnlyCounts(ordered, kinds, p);
      OnlyCounts(changes, kinds, p);
    }
    assert multiset(Only(ordered, kinds)) == multiset(Only(changes, kinds));
    forall p | p in Only(ordered, kinds) ensures WellFormed(p) {
      assert p in multiset(ordered) && p in changes;
    }
    CanonicalUnique(Only(ordered, kinds), Only(changes, kinds));
  }

  lemma {:induction false} PublicsFormed(changes: seq<Change>)
    requires forall i :: 0 <= i < |changes| ==> WellFormed(changes[i].public)
    ensures forall p :: p in Publics(changes) ==> WellFormed(p)
  {
    if changes != [] {
      PublicsFormed(changes[1..]);
    }
  }

  // What a commit lists under "ontology" or "knowledge" is what it lists under "all", less the other kinds;
  // and under "all" it lists everything that differs from its first parent.
  lemma CommitScopes(store: Store, anchor: string, other: string, commit: Commit, scope: string)
    requires ValidStore(store) && (scope == "ontology" || scope == "knowledge")
    ensures match ViewOf(store, "all", anchor, commit)
            case Listed(changes) =>
              && commit in store.parents && store.parents[commit] != [] && store.diff(store.parents[commit][0], commit).Success?
              && multiset(changes) == multiset(Publics(store.diff(store.parents[commit][0], commit).value)) && Ordered(changes, Key)
              && ViewOf(store, scope, other, commit) == Listed(Only(changes, KindsOf(scope)))
            case view => ViewOf(store, scope, other, commit) == view
  {
    if ViewOf(store, "all", anchor, commit).Listed? {
      var diff := store.diff(store.parents[commit][0], commit).value;
      SelectedIsOnly(diff, "all", anchor);
      SelectedIsOnly(diff, scope, other);
      OnlyAll(Publics(diff));
      PublicsFormed(diff);
      OnlyThenOrdered(Publics(diff), KindsOf(scope));
      SortedOrdered(Publics(diff), Key);
    }
  }

  // ----- the whole history

  // The changes among the entries, of these kinds, each with its State.
  function ChangesIn(entries: seq<Entry>, kinds: set<Kind>): seq<(Commit, PublicChange)> {
    if entries == [] then []
    else ChangeIn(entries[0], kinds) + ChangesIn(entries[1..], kinds)
  }

  function ChangeIn(entry: Entry, kinds: set<Kind>): seq<(Commit, PublicChange)> {
    if entry.change.Some? && entry.change.value.kind in kinds then [(entry.state, entry.change.value)] else []
  }

  lemma {:induction false} ChangesConcat(a: seq<Entry>, b: seq<Entry>, kinds: set<Kind>)
    ensures ChangesIn(a + b, kinds) == ChangesIn(a, kinds) + ChangesIn(b, kinds)
  {
    if a == [] {
      assert a + b == b;
    } else {
      ChangesConcat(a[1..], b, kinds);
      assert (a + b)[0] == a[0] && (a + b)[1..] == a[1..] + b;
      Associate(ChangeIn(a[0], kinds), ChangesIn(a[1..], kinds), ChangesIn(b, kinds));
    }
  }

  function At(commit: Commit, changes: seq<PublicChange>): seq<(Commit, PublicChange)> {
    if changes == [] then [] else [(commit, changes[0])] + At(commit, changes[1..])
  }

  lemma {:induction false} ChangesEmitted(store: Store, commit: Commit, changes: seq<PublicChange>, kinds: set<Kind>)
    ensures ChangesIn(Emit(store, commit, changes), kinds) == At(commit, Only(changes, kinds))
  {
    if changes != [] {
      ChangesEmitted(store, commit, changes[1..], kinds);
      var entries := Emit(store, commit, changes);
      assert entries[1..] == Emit(store, commit, changes[1..]);
      assert entries[0] == Entry(commit, ParentsOf(store, commit), Some(changes[0]));
      if changes[0].kind in kinds {
        assert ([changes[0]] + Only(changes[1..], kinds))[1..] == Only(changes[1..], kinds);
      } else {
        assert [] + Only(changes[1..], kinds) == Only(changes[1..], kinds);
        assert [] + ChangesIn(entries[1..], kinds) == ChangesIn(entries[1..], kinds);
      }
    }
  }

  lemma {:induction false} OnlyTwice(changes: seq<PublicChange>, kinds: set<Kind>)
    ensures Only(Only(changes, kinds), OntologyKinds + KnowledgeKinds) == Only(changes, kinds)
  {
    OnlyAll(Only(changes, kinds));
  }

  // One commit's entries under a scope hold the changes of its kinds of those under "all".
  lemma ShownScoped(store: Store, commit: Commit, scope: string, whole: View, part: View, bare: bool)
    requires scope == "ontology" || scope == "knowledge"
    requires if whole.Listed? then part == Listed(Only(whole.changes, KindsOf(scope))) else part == whole
    ensures ChangesIn(Shown(store, scope, commit, part, bare, 0), OntologyKinds + KnowledgeKinds)
         == ChangesIn(Shown(store, "all", commit, whole, bare, 0), KindsOf(scope))
  {
    if whole.Listed? {
      ListedShown(store, commit, scope, part.changes, bare, OntologyKinds + KnowledgeKinds);
      ListedShown(store, commit, "all", whole.changes, bare, KindsOf(scope));
      OnlyTwice(whole.changes, KindsOf(scope));
    } else if whole.Genesis? {
      BareHolds(store, commit, OntologyKinds + KnowledgeKinds);
      BareHolds(store, commit, KindsOf(scope));
    }
  }

  lemma BareHolds(store: Store, commit: Commit, kinds: set<Kind>)
    ensures ChangesIn([Bare(store, commit)], kinds) == []
  {
  }

  lemma ListedShown(store: Store, commit: Commit, scope: string, changes: seq<PublicChange>, bare: bool, kinds: set<Kind>)
    ensures ChangesIn(Shown(store, scope, commit, Listed(changes), bare, 0), kinds) == At(commit, Only(changes, kinds))
  {
    assert changes[0..] == changes;
    ChangesEmitted(store, commit, changes, kinds);
    BareHolds(store, commit, kinds);
  }

  // A scope's history ends where the whole one does and holds its changes of these kinds, in the same order.
  ghost predicate HoldsKinds(scope: string, whole: Flat, part: Flat) {
    part.end == whole.end && ChangesIn(part.entries, OntologyKinds + KnowledgeKinds) == ChangesIn(whole.entries, KindsOf(scope))
  }

  lemma EndOfLog(store: Store, scope: string, anchor: string, other: string, root: Commit, position: nat, bare: bool) returns (whole: Flat, part: Flat)
    requires root !in store.log || position >= |store.log[root]|
    ensures whole == FlatFrom(store, "all", anchor, root, position, bare) && part == FlatFrom(store, scope, other, root, position, bare)
    ensures HoldsKinds(scope, whole, part)
  {
    whole, part := FlatFrom(store, "all", anchor, root, position, bare), FlatFrom(store, scope, other, root, position, bare);
    assert whole == part && whole.entries == [];
  }

  // The history of "ontology" and that of "knowledge" hold exactly the changes of "all" of their kinds, commit
  // by commit in the same order, and end where it ends.
  lemma {:induction false} HistoryByKind(store: Store, scope: string, anchor: string, other: string, root: Commit, position: nat, bare: bool)
      returns (whole: Flat, part: Flat)
    requires ValidStore(store) && (scope == "ontology" || scope == "knowledge")
    ensures whole == FlatFrom(store, "all", anchor, root, position, bare) && part == FlatFrom(store, scope, other, root, position, bare)
    ensures HoldsKinds(scope, whole, part)
    decreases if root in store.log && position <= |store.log[root]| then |store.log[root]| - position else 0
  {
    if root !in store.log || position >= |store.log[root]| {
      whole, part := EndOfLog(store, scope, anchor, other, root, position, bare);
    } else if position + 1 == |store.log[root]| {
      whole, part := OneCommitMore(store, scope, anchor, other, root, position, bare, Nothing, Nothing);
    } else {
      var a, b := HistoryByKind(store, scope, anchor, other, root, position + 1, true);
      whole, part := OneCommitMore(store, scope, anchor, other, root, position, bare, a, b);
    }
  }

  lemma OneCommitMore(store: Store, scope: string, anchor: string, other: string, root: Commit, position: nat, bare: bool, a: Flat, b: Flat)
      returns (whole: Flat, part: Flat)
    requires ValidStore(store) && (scope == "ontology" || scope == "knowledge") && root in store.log && position < |store.log[root]|
    requires Behind(store, "all", anchor, root, position, a) && Behind(store, scope, other, root, position, b) && HoldsKinds(scope, a, b)
    ensures whole == FlatFrom(store, "all", anchor, root, position, bare) && part == FlatFrom(store, scope, other, root, position, bare)
    ensures HoldsKinds(scope, whole, part)
  {
    var commit := store.log[root][position];
    var x, y := ViewOf(store, "all", anchor, commit), ViewOf(store, scope, other, commit);
    CommitScopes(store, anchor, other, commit, scope);
    ViewByKind(store, commit, scope, x, y, bare, a, b);
    OneCommit(store, "all", anchor, root, position, bare, a);
    OneCommit(store, scope, other, root, position, bare, b);
    whole, part := FromView(store, "all", commit, x, bare, 0, a), FromView(store, scope, commit, y, bare, 0, b);
  }

  lemma ViewByKind(store: Store, commit: Commit, scope: string, whole: View, part: View, bare: bool, a: Flat, b: Flat)
    requires scope == "ontology" || scope == "knowledge"
    requires if whole.Listed? then part == Listed(Only(whole.changes, KindsOf(scope))) else part == whole
    requires HoldsKinds(scope, a, b)
    ensures HoldsKinds(scope, FromView(store, "all", commit, whole, bare, 0, a), FromView(store, scope, commit, part, bare, 0, b))
  {
    var all, some := Shown(store, "all", commit, whole, bare, 0), Shown(store, scope, commit, part, bare, 0);
    ShownScoped(store, commit, scope, whole, part, bare);
    ChangesConcat(all, a.entries, KindsOf(scope));
    ChangesConcat(some, b.entries, OntologyKinds + KnowledgeKinds);
    ChangesConcat(all, [], KindsOf(scope));
    ChangesConcat(some, [], OntologyKinds + KnowledgeKinds);
  }

  lemma ScopedHistory(store: Store, scope: string, root: Commit)
    requires ValidStore(store) && (scope == "ontology" || scope == "knowledge")
    ensures HoldsKinds(scope, FlatHistory(store, "all", "", root), FlatHistory(store, scope, "", root))
  {
    var whole, part := HistoryByKind(store, scope, "", "", root, 0, true);
  }

  // ----- one object

  // The public side of the changes that carry the anchor among their identities.
  function Carrying(changes: seq<Change>, identities: Change -> seq<string>, anchor: string): seq<PublicChange> {
    if changes == [] then []
    else (if anchor in identities(changes[0]) then [changes[0].public] else []) + Carrying(changes[1..], identities, anchor)
  }

  ghost predicate Identified(change: Change, identities: seq<string>) {
    identities != [] && (forall i :: 0 <= i < |identities| ==> NUL !in identities[i]) && change.identity == Join(identities, NUL)
  }

  lemma {:induction false} SelectedIsCarrying(changes: seq<Change>, identities: Change -> seq<string>, anchor: string)
    requires NUL !in anchor && forall c :: c in changes ==> Identified(c, identities(c))
    ensures Selected(changes, "object", anchor) == Carrying(changes, identities, anchor)
  {
    if changes != [] {
      AnchorAmongIdentities(changes[0], identities(changes[0]), anchor);
      SelectedIsCarrying(changes[1..], identities, anchor);
    }
  }

  // Under "object" a commit lists exactly the changes that carry the anchor, in order of their keys.
  lemma CommitOfObject(store: Store, identities: Change -> seq<string>, anchor: string, commit: Commit)
    requires ValidStore(store) && NUL !in anchor && ViewOf(store, "object", anchor, commit).Listed?
    requires var diff := store.diff(store.parents[commit][0], commit); diff.Success? ==> forall c :: c in diff.value ==> Identified(c, identities(c))
    ensures store.diff(store.parents[commit][0], commit).Success?
    ensures var listed := ViewOf(store, "object", anchor, commit).changes;
            multiset(listed) == multiset(Carrying(store.diff(store.parents[commit][0], commit).value, identities, anchor)) && Ordered(listed, Key)
  {
    var diff := store.diff(store.parents[commit][0], commit).value;
    SelectedIsCarrying(diff, identities, anchor);
    SortedOrdered(Selected(diff, "object", anchor), Key);
  }

  // ----- which requests are answered

  // A scope of its own for an object, none for the others.
  predicate ScopeFits(store: Store, scope: string, filter: Option<Filter>) {
    match filter
    case None => scope == "all" || scope == "ontology" || scope == "knowledge"
    case Some(f) => scope == "object" && f.anchorState != "" && f.ref != "" && store.objectRef(f.ref).Success?
  }

  predicate RequestFits(store: Store, request: Request) {
    0 <= request.limit <= 1000 && ScopeFits(store, request.scope, request.filter) && StateRefCheck(request.root).Success?
  }

  // The anchor is the root or in its log, and has the object.
  predicate AnchorFits(store: Store, root: Commit, anchor: Commit, ref: string) {
    (root == anchor || (root in store.log && anchor in store.log[root])) && store.identity(anchor, ref).Success?
  }

  // The cursor is one of this history.
  predicate CursorFits(store: Store, request: Request, cursor: Cursor) {
    && cursor.version == 1 && cursor.op == "history" && cursor.root != ""
    && cursor.rootRef == request.root && cursor.scope == request.scope
    && (request.filter.None? ==> cursor.anchorRef == "" && cursor.ref == "")
    && (request.filter.Some? ==> cursor.anchorRef == request.filter.value.anchorState && cursor.ref == request.filter.value.ref)
    && (cursor.state != "" ==> cursor.offset >= 1 && cursor.lastKey != "")
    && (request.filter.Some? ==> store.identity(cursor.anchor, request.filter.value.ref).Success?)
  }

  // A first page is opened exactly for a request that fits, a root that resolves and an anchor among its ancestors.
  lemma FirstPageOpens(store: Store, resolve: string -> Result<Commit>, request: Request)
    requires request.cursor.None?
    ensures Open(store, resolve, request).Success? <==>
              && RequestFits(store, request) && resolve(request.root).Success?
              && (request.filter.Some? ==>
                   && resolve(request.filter.value.anchorState).Success?
                   && AnchorFits(store, resolve(request.root).value, resolve(request.filter.value.anchorState).value, request.filter.value.ref))
  {
  }

  // A later page exactly for a cursor of the same history.
  lemma LaterPageOpens(store: Store, resolve: string -> Result<Commit>, request: Request)
    requires request.cursor.Some?
    ensures Open(store, resolve, request).Success? <==> RequestFits(store, request) && CursorFits(store, request, request.cursor.value)
  {
  }

  lemma OpenedFits(store: Store, resolve: string -> Result<Commit>, request: Request)
    requires Open(store, resolve, request).Success?
    ensures RequestFits(store, request)
    ensures request.filter.Some? ==> store.identity(Open(store, resolve, request).value.resolvedAnchor, request.filter.value.ref).Success?
  {
  }

  lemma PageDenotes(store: Store, x: Exchange)
    requires Answers(store, x.resolve, x.request, Success(x.page)) && x.page.cursor.Some?
    ensures Open(store, x.resolve, x.request).Success?
    ensures Denotes(x.request, Open(store, x.resolve, x.request).value, x.page.cursor.value)
  {
    LimitChecked(store, x);
    PageIsPrefix(store, x, Open(store, x.resolve, x.request).value);
  }

  lemma DenotedFits(store: Store, request: Request, f: Frontier, cursor: Cursor)
    requires Denotes(request, f, cursor) && f.root != ""
    requires request.filter.Some? ==> store.identity(f.resolvedAnchor, request.filter.value.ref).Success?
    ensures CursorFits(store, request, cursor)
  {
  }

  // Whoever got a page with a cursor can ask for the next one, under any allowed limit.
  lemma NextPageOpens(store: Store, x: Exchange, next: Exchange)
    requires Answers(store, x.resolve, x.request, Success(x.page)) && PassesOn(x, next) && 0 <= next.request.limit <= 1000
    requires x.page.cursor.value.root != ""
    ensures Open(store, next.resolve, next.request).Success?
  {
    PageDenotes(store, x);
    OpenedFits(store, x.resolve, x.request);
    var f := Open(store, x.resolve, x.request).value;
    DenotedFits(store, x.request, f, x.page.cursor.value);
    LaterPageOpens(store, next.resolve, next.request);
  }

  // A page that is not the last holds as many entries as were asked for, a hundred where no number was given.
  lemma PageHolds(store: Store, x: Exchange)
    requires Answers(store, x.resolve, x.request, Success(x.page)) && x.page.cursor.Some?
    ensures |x.page.items| == if x.request.limit == 0 then 100 else x.request.limit
  {
    LimitChecked(store, x);
    PageIsPrefix(store, x, Open(store, x.resolve, x.request).value);
  }

  // A State is named by a commit of 64 hexadecimal digits, a branch or a tag.
  lemma StatesNamed(name: string)
    ensures StateRefCheck("commit/" + name).Success? <==> |name| == 64 && forall i :: 0 <= i < 64 ==> '0' <= name[i] <= '9' || 'a' <= name[i] <= 'f'
    ensures StateRefCheck("branch/" + name).Success? <==> ValidRefName(name)
    ensures StateRefCheck("tag/" + name).Success? <==> ValidRefName(name)
    ensures StateRefCheck(name).Success? ==> "commit/" <= name || "branch/" <= name || "tag/" <= name
  {
    var c, b, t := "commit/" + name, "branch/" + name, "tag/" + name;
    assert c[7..] == name && b[7..] == name && t[4..] == name;
    assert c[0] == 'c' && b[0] == 'b' && t[0] == 't';
  }
}
