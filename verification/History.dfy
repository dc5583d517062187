// EvolutionHistory (internal/kernel/evolution_history.go): paging over a commit log and, inside
// each commit, over its changes, with a resumable four-part cursor.

// The key that orders the changes of one commit (changeKey, internal/kernel/evolution_state.go),
// and the order-independent meaning of sorting by it.
module ChangeOrder {
  import opened Text
  import opened Sorting
  import opened Model

  // What a caller sees of a change. body is its JSON text, which spells out every public field.
  datatype PublicChange = PublicChange(kind: Kind, ref: string, path: string, change: string, body: string)

  // identity is the private continuity anchor; several identities are separated by NUL.
  datatype Change = Change(public: PublicChange, identity: string)

  const NUL: char := '\0'

  function KindName(kind: Kind): string {
    match kind
    case DomainKind => "domain"
    case NodeDefinition => "node-definition"
    case RelationshipDefinition => "relationship-definition"
    case KnowledgeNode => "knowledge-node"
    case KnowledgeRelationship => "knowledge-relationship"
  }

  // JSON text and public strings never hold a NUL byte, so the key can be taken apart again.
  predicate WellFormed(p: PublicChange) {
    NUL !in p.ref && NUL !in p.path && NUL !in p.change && NUL !in p.body
  }

  function Key(p: PublicChange): (key: string)
    ensures key != ""
  {
    Join([KindName(p.kind), p.ref, p.path, p.change, p.body], NUL)
  }

  lemma KindNameInjective(a: Kind, b: Kind)
    requires KindName(a) == KindName(b)
    ensures a == b
  {
  }

  // Two changes with one key are the same change to a caller.
  lemma KeyInjective(a: PublicChange, b: PublicChange)
    requires WellFormed(a) && WellFormed(b) && Key(a) == Key(b)
    ensures a == b
  {
    var left := [KindName(a.kind), a.ref, a.path, a.change, a.body];
    var right := [KindName(b.kind), b.ref, b.path, b.change, b.body];
    SplitJoin(left, NUL);
    SplitJoin(right, NUL);
    assert left[0] == right[0] && left[1] == right[1] && left[2] == right[2]
        && left[3] == right[3] && left[4] == right[4];
    KindNameInjective(a.kind, b.kind);
  }

  // The one list that every sort of these changes by key shows to the caller.
  function Canonical(s: seq<PublicChange>): (r: seq<PublicChange>)
    ensures multiset(r) == multiset(s)
  {
    Sorted(s, Key)
  }

  // Any ordered permutation of the changes is the canonical list: ties in the key are ties in
  // everything a caller sees.
  lemma CanonicalUnique(sorted: seq<PublicChange>, changes: seq<PublicChange>)
    requires forall p :: p in sorted ==> WellFormed(p)
    requires multiset(sorted) == multiset(changes) && Ordered(sorted, Key)
    ensures sorted == Canonical(changes)
  {
    SortedOrdered(changes, Key);
    forall i, j | 0 <= i < |sorted| && 0 <= j < |sorted| && Key(sorted[i]) == Key(sorted[j])
      ensures sorted[i] == sorted[j]
    {
      KeyInjective(sorted[i], sorted[j]);
    }
    OrderedUnique(sorted, Canonical(changes), Key);
  }
}

module History {
  import opened Outcomes
  import opened Text
  import opened Sorting
  import opened Model
  import opened ChangeOrder

  type Commit = string

  const MAX_EVOLUTION_LIMIT: nat := 1000
  const DEFAULT_EVOLUTION_LIMIT: nat := 100

  // What decodeResolvedSnapshot says about a commit.
  datatype Health = Sound | Inconsistent | Unreadable(code: Code)

  // The immutable part of the database. log holds, per root, every commit of its ancestry in the
  // order the engine lists them; objectRef is what ParseObjectRef says of a reference.
  datatype Store = Store(
    log: map<Commit, seq<Commit>>,
    parents: map<Commit, seq<Commit>>,
    health: Commit -> Health,
    diff: (Commit, Commit) -> Result<seq<Change>>,
    identity: (Commit, string) -> Result<string>,
    objectRef: string -> Result<()>)

  ghost predicate ValidStore(store: Store) {
    && (forall root, i :: root in store.log && 0 <= i < |store.log[root]| ==>
         store.log[root][i] in store.parents && store.log[root][i] != "")
    && (forall a, b :: store.diff(a, b).Success? ==>
         forall i :: 0 <= i < |store.diff(a, b).value| ==> WellFormed(store.diff(a, b).value[i].public))
  }

  datatype Filter = Filter(anchorState: string, ref: string)

  // The opaque cursor after decoding. native 0 stands for the empty native cursor, and the empty
  // state for "between two commits".
  datatype Cursor = Cursor(
    version: int, op: string, rootRef: string, root: Commit, scope: string, anchorRef: string, anchor: Commit, ref: string,
    native: nat, state: Commit, offset: int, lastKey: string)

  datatype Request = Request(root: string, scope: string, filter: Option<Filter>, limit: int, cursor: Option<Cursor>)

  datatype Entry = Entry(state: Commit, parents: seq<Commit>, change: Option<PublicChange>)

  datatype Page = Page(root: Commit, items: seq<Entry>, cursor: Option<Cursor>)

  // ----- the simple specification: the whole history as one list

  // The entries still to be listed and, if the walk runs into one, the error it stops at.
  datatype Flat = Flat(entries: seq<Entry>, end: Option<Code>)

  const Nothing := Flat([], None)

  // How one commit reads under a scope.
  datatype View = Cut | Broken(code: Code) | Genesis(boundary: bool) | Listed(changes: seq<PublicChange>)

  predicate InScope(change: Change, scope: string, anchor: string) {
    match scope
    case "all" => true
    case "ontology" => change.public.kind in {DomainKind, NodeDefinition, RelationshipDefinition}
    case "knowledge" => change.public.kind in {KnowledgeNode, KnowledgeRelationship}
    case "object" => change.identity == anchor || anchor in Split(change.identity, NUL)
    case _ => false
  }

  function Selected(changes: seq<Change>, scope: string, anchor: string): (r: seq<PublicChange>)
    ensures forall p :: p in r ==> exists c :: c in changes && c.public == p
  {
    if changes == [] then []
    else
      (if InScope(changes[0], scope, anchor) then [changes[0].public] else []) + Selected(changes[1..], scope, anchor)
  }

  // The public changes between two commits under a scope, in the order of their keys.
  function ChangesOf(store: Store, scope: string, anchor: string, parent: Commit, commit: Commit): Result<seq<PublicChange>> {
    var changes :- store.diff(parent, commit);
    Success(Canonical(Selected(changes, scope, anchor)))
  }

  function ViewOf(store: Store, scope: string, anchor: string, commit: Commit): View {
    if commit !in store.parents then Broken(ObjectNotFound)
    else
      match store.health(commit)
      case Inconsistent => Cut
      case Unreadable(code) => Broken(code)
      case Sound =>
        var parents := store.parents[commit];
        if parents == [] then Genesis(false)
        else
          match store.health(parents[0])
          case Inconsistent => Genesis(true)
          case Unreadable(code) => Broken(code)
          case Sound =>
            match ChangesOf(store, scope, anchor, parents[0], commit)
            case Failure(code) => Broken(code)
            case Success(changes) => Listed(changes)
  }

  function ParentsOf(store: Store, commit: Commit): seq<Commit> {
    if commit in store.parents then store.parents[commit] else []
  }

  function Emit(store: Store, commit: Commit, changes: seq<PublicChange>): (r: seq<Entry>)
    ensures |r| == |changes|
  {
    seq(|changes|, i requires 0 <= i < |changes| => Entry(commit, ParentsOf(store, commit), Some(changes[i])))
  }

  function Bare(store: Store, commit: Commit): Entry {
    Entry(commit, ParentsOf(store, commit), None)
  }

  function Prepend(entries: seq<Entry>, rest: Flat): Flat {
    Flat(entries + rest.entries, rest.end)
  }

  // The entries a commit contributes from change first on. bare says whether an entry without a
  // change is still to be shown.
  function Shown(store: Store, scope: string, commit: Commit, view: View, bare: bool, first: nat): seq<Entry> {
    match view
    case Genesis(_) => if bare then [Bare(store, commit)] else []
    case Listed(changes) =>
      if changes == [] && scope == "all" then if bare then [Bare(store, commit)] else []
      else if first <= |changes| then Emit(store, commit, changes[first..])
      else []
    case _ => []
  }

  // A commit's entries followed by the rest of the history, or the place where the history is cut.
  function FromView(store: Store, scope: string, commit: Commit, view: View, bare: bool, first: nat, after: Flat): Flat {
    match view
    case Cut => Nothing
    case Broken(code) => Flat([], Some(code))
    case Genesis(boundary) => Prepend(Shown(store, scope, commit, view, bare, first), if boundary then Nothing else after)
    case Listed(_) => Prepend(Shown(store, scope, commit, view, bare, first), after)
  }

  // The flat history from a position of the root's log on.
  function FlatFrom(store: Store, scope: string, anchor: string, root: Commit, position: nat, bare: bool): Flat
    decreases if root in store.log && position <= |store.log[root]| then |store.log[root]| - position else 0
  {
    if root !in store.log then Flat([], Some(ObjectNotFound))
    else if position >= |store.log[root]| then
      if position == 0 then Nothing else Flat([], Some(InvalidArgument))
    else
      var commit := store.log[root][position];
      FromView(store, scope, commit, ViewOf(store, scope, anchor, commit), bare, 0,
        if position + 1 == |store.log[root]| then Nothing else FlatFrom(store, scope, anchor, root, position + 1, true))
  }

  // The history of a root under a scope and object identity, as one list.
  function FlatHistory(store: Store, scope: string, anchor: string, root: Commit): Flat {
    FlatFrom(store, scope, anchor, root, 0, true)
  }

  // Where a request stands before it reads anything.
  datatype Frontier = Frontier(
    root: Commit, resolvedAnchor: Commit, anchor: string, state: Commit, offset: int, lastKey: string, native: nat)

  function AfterNative(store: Store, scope: string, f: Frontier, native: nat): Flat {
    if native == 0 then Nothing else FlatFrom(store, scope, f.anchor, f.root, native, true)
  }

  function ValidatedChangeOffset(changes: seq<PublicChange>, offset: int, lastKey: string): Result<nat> {
    if offset < 0 || offset > |changes| then Failure(InvalidArgument)
    else if offset == 0 then
      if lastKey != "" then Failure(InvalidArgument) else Success(0)
    else if lastKey == "" || Key(changes[offset - 1]) != lastKey then Failure(InvalidArgument)
    else Success(offset)
  }

  // What is left inside the commit a frontier stands in, and behind it.
  function Resumed(store: Store, scope: string, f: Frontier, view: View): Flat {
    match view
    case Genesis(_) => Flat([], Some(InvalidArgument))
    case Listed(changes) =>
      (match ValidatedChangeOffset(changes, f.offset, f.lastKey)
       case Failure(code) => Flat([], Some(code))
       case Success(first) =>
         FromView(store, scope, f.state, view, f.lastKey == "", first, AfterNative(store, scope, f, f.native)))
    case _ => FromView(store, scope, f.state, view, false, 0, Nothing)
  }

  // What is still to be listed from a frontier on, for genuine and for made-up cursors alike. (A
  // made-up cursor with a last key but no state makes the source skip a leading bare entry.)
  function Rest(store: Store, scope: string, f: Frontier): Flat {
    if f.state == "" then FlatFrom(store, scope, f.anchor, f.root, f.native, f.lastKey == "")
    else Resumed(store, scope, f, ViewOf(store, scope, f.anchor, f.state))
  }

  // ----- opening a request

  function EffectiveLimit(limit: int): Result<nat> {
    if limit == 0 then Success(DEFAULT_EVOLUTION_LIMIT)
    else if limit < 1 || limit > MAX_EVOLUTION_LIMIT then Failure(InvalidArgument)
    else Success(limit)
  }

  // validateRefName; characters are bytes.
  predicate ValidRefName(name: string) {
    && 1 <= |name| <= 255
    && (forall i :: 0 <= i < |name| ==> ' ' <= name[i] != 0x7f as char)
    && name[0] != '/' && name[|name| - 1] != '/'
    && forall segment :: segment in Split(name, '/') ==> segment !in {"", ".", ".."}
  }

  predicate ValidCommitName(name: string) {
    |name| == 64 && forall i :: 0 <= i < |name| ==> '0' <= name[i] <= '9' || 'a' <= name[i] <= 'f'
  }

  // validateStateRef.
  function StateRefCheck(ref: string): Result<()> {
    if "commit/" <= ref then (if ValidCommitName(ref[7..]) then Success(()) else Failure(InvalidArgument))
    else if "branch/" <= ref then (if ValidRefName(ref[7..]) then Success(()) else Failure(InvalidArgument))
    else if "tag/" <= ref then (if ValidRefName(ref[4..]) then Success(()) else Failure(InvalidArgument))
    else Failure(InvalidArgument)
  }

  function ScopeCheck(store: Store, scope: string, filter: Option<Filter>): Result<()> {
    if scope in {"all", "ontology", "knowledge"} then
      if filter.Some? then Failure(InvalidArgument) else Success(())
    else if scope == "object" then
      if filter.None? || filter.value.anchorState == "" || filter.value.ref == "" then Failure(InvalidArgument)
      else store.objectRef(filter.value.ref)
    else Failure(InvalidArgument)
  }

  function AnchorRef(filter: Option<Filter>): string {
    if filter.Some? then filter.value.anchorState else ""
  }

  function ObjectName(filter: Option<Filter>): string {
    if filter.Some? then filter.value.ref else ""
  }

  function AnchorIdentity(store: Store, filter: Option<Filter>, resolvedAnchor: Commit): Result<string> {
    if filter.None? then Success("") else store.identity(resolvedAnchor, filter.value.ref)
  }

  predicate InAncestry(store: Store, root: Commit, anchor: Commit) {
    root == anchor || (root in store.log && anchor in store.log[root])
  }

  // The frontier a request starts from. resolve is how branch and tag names read at this moment;
  // a request that carries a cursor never consults it.
  function Open(store: Store, resolve: string -> Result<Commit>, request: Request): Result<Frontier> {
    var _ :- EffectiveLimit(request.limit);
    var _ :- ScopeCheck(store, request.scope, request.filter);
    var _ :- StateRefCheck(request.root);
    match request.cursor
    case Some(cursor) =>
      if cursor.version != 1 || cursor.op != "history" || cursor.rootRef != request.root || cursor.root == "" ||
         cursor.scope != request.scope || cursor.anchorRef != AnchorRef(request.filter) ||
         cursor.ref != ObjectName(request.filter) ||
         (cursor.state != "" && (cursor.offset < 1 || cursor.lastKey == ""))
      then Failure(InvalidArgument)
      else
        var anchor :- AnchorIdentity(store, request.filter, cursor.anchor);
        Success(Frontier(cursor.root, cursor.anchor, anchor, cursor.state, cursor.offset, cursor.lastKey, cursor.native))
    case None =>
      var root :- resolve(request.root);
      if request.filter.None? then Success(Frontier(root, "", "", "", 0, "", 0))
      else
        var resolved :- resolve(request.filter.value.anchorState);
        if root != resolved && root !in store.log then Failure(ObjectNotFound)
        else if !InAncestry(store, root, resolved) then Failure(InvalidArgument)
        else
          var anchor :- AnchorIdentity(store, request.filter, resolved);
          Success(Frontier(root, resolved, anchor, "", 0, "", 0))
  }

  // The frontier is the one the page's cursor denotes for the same request.
  ghost predicate Denotes(request: Request, f: Frontier, cursor: Cursor) {
    && cursor.version == 1 && cursor.op == "history" && cursor.rootRef == request.root && cursor.root == f.root
    && cursor.scope == request.scope && cursor.anchorRef == AnchorRef(request.filter)
    && cursor.anchor == f.resolvedAnchor && cursor.ref == ObjectName(request.filter)
    && (cursor.state != "" ==> cursor.offset >= 1 && cursor.lastKey != "")
  }

  function Moved(f: Frontier, cursor: Cursor): Frontier {
    f.(state := cursor.state, offset := cursor.offset, lastKey := cursor.lastKey, native := cursor.native)
  }

  // r is the next limit entries of rest; its cursor, if any, stands for the remainder.
  ghost predicate Slice(store: Store, request: Request, f: Frontier, rest: Flat, limit: nat, r: Result<Page>) {
    if |rest.entries| >= limit then
      && r.Success? && r.value.root == f.root && r.value.items == rest.entries[..limit]
      && match r.value.cursor
         case None => |rest.entries| == limit && rest.end == None
         case Some(cursor) =>
           && Denotes(request, f, cursor)
           && Rest(store, request.scope, Moved(f, cursor)) == Flat(rest.entries[limit..], rest.end)
    else
      match rest.end
      case Some(code) => r == Failure(code)
      case None => r == Success(Page(f.root, rest.entries, None))
  }

  // A page answers a request when it is the next slice of the flat history.
  ghost predicate Answers(store: Store, resolve: string -> Result<Commit>, request: Request, r: Result<Page>) {
    match Open(store, resolve, request)
    case Failure(code) => r == Failure(code)
    case Success(f) => Slice(store, request, f, Rest(store, request.scope, f), EffectiveLimit(request.limit).value, r)
  }

  // ----- the operations, as the source runs them

  datatype LogEntry = LogEntry(commit: Commit, parents: seq<Commit>, cursor: nat)

  // The engine's Log: up to count entries after a native cursor; an entry carries a cursor exactly
  // when another one follows it.
  function Log(store: Store, root: Commit, count: nat, native: nat): (r: Result<seq<LogEntry>>)
    ensures r.Success? ==> root in store.log && (native == 0 || native < |store.log[root]|)
    ensures r.Success? ==> |r.value| == if native + count <= |store.log[root]| then count else |store.log[root]| - native
    ensures r.Success? ==> forall i :: 0 <= i < |r.value| ==>
              && r.value[i].commit == store.log[root][native + i]
              && r.value[i].parents == ParentsOf(store, r.value[i].commit)
              && r.value[i].cursor == if native + i + 1 < |store.log[root]| then native + i + 1 else 0
  {
    if root !in store.log then Failure(ObjectNotFound)
    else
      var log := store.log[root];
      if native > 0 && native >= |log| then Failure(InvalidArgument)
      else
        var n := if native + count <= |log| then count else |log| - native;
        Success(seq(n, i requires 0 <= i < n =>
          var at := native + i;
          LogEntry(log[at], ParentsOf(store, log[at]), if at + 1 < |log| then at + 1 else 0)))
  }

  method RequireHistoryAnchor(store: Store, root: Commit, anchor: Commit) returns (r: Result<()>)
    ensures r == if root != anchor && root !in store.log then Failure(ObjectNotFound)
                 else if InAncestry(store, root, anchor) then Success(())
                 else Failure(InvalidArgument)
  {
    if root == anchor {
      return Success(());
    }
    var native: nat := 0;
    while true
      invariant root in store.log ==> native <= |store.log[root]|
      invariant root in store.log ==> native == 0 || native < |store.log[root]|
      invariant root in store.log ==> anchor !in store.log[root][..native]
      invariant native > 0 ==> root in store.log
      decreases if root in store.log then |store.log[root]| - native else 0
    {
      var entries :- Log(store, root, MAX_EVOLUTION_LIMIT, native);
      var log := store.log[root];
      if |entries| == 0 {
        break;
      }
      var k := 0;
      while k < |entries|
        invariant 0 <= k <= |entries|
        invariant anchor !in log[..native + k]
      {
        if entries[k].commit == anchor {
          assert log[native + k] == anchor;
          return Success(());
        }
        assert log[..native + k + 1] == log[..native + k] + [log[native + k]];
        k := k + 1;
      }
      var last := entries[|entries| - 1];
      if last.cursor == 0 {
        assert log[..native + k] == log;
        break;
      }
      native := last.cursor;
    }
    assert anchor !in store.log[root] by {
      assert store.log[root][..|store.log[root]|] == store.log[root];
    }
    return Failure(InvalidArgument);
  }

  method OpenRequest(store: Store, resolve: string -> Result<Commit>, request: Request) returns (r: Result<Frontier>)
    ensures r == Open(store, resolve, request)
  {
    var _ :- EffectiveLimit(request.limit);
    var _ :- ScopeCheck(store, request.scope, request.filter);
    var _ :- StateRefCheck(request.root);
    var f := Frontier("", "", "", "", 0, "", 0);
    if request.cursor.Some? {
      var cursor := request.cursor.value;
      if cursor.version != 1 || cursor.op != "history" || cursor.rootRef != request.root || cursor.root == "" ||
         cursor.scope != request.scope || cursor.anchorRef != AnchorRef(request.filter) ||
         cursor.ref != ObjectName(request.filter) {
        return Failure(InvalidArgument);
      }
      f := Frontier(cursor.root, cursor.anchor, "", cursor.state, cursor.offset, cursor.lastKey, cursor.native);
      if f.state != "" && (f.offset < 1 || f.lastKey == "") {
        return Failure(InvalidArgument);
      }
    } else {
      var root :- resolve(request.root);
      f := f.(root := root);
      if request.filter.Some? {
        var resolved :- resolve(request.filter.value.anchorState);
        f := f.(resolvedAnchor := resolved);
        var check := RequireHistoryAnchor(store, root, resolved);
        if check.Failure? {
          return Failure(check.code);
        }
      }
    }
    if request.filter.Some? {
      var anchor :- store.identity(f.resolvedAnchor, request.filter.value.ref);
      f := f.(anchor := anchor);
    }
    return Success(f);
  }

  method FilterChanges(changes: seq<Change>, scope: string, anchor: string) returns (r: seq<PublicChange>)
    ensures r == Selected(changes, scope, anchor)
  {
    r := [];
    var i := 0;
    while i < |changes|
      invariant 0 <= i <= |changes|
      invariant r + Selected(changes[i..], scope, anchor) == Selected(changes, scope, anchor)
    {
      assert changes[i..][1..] == changes[i + 1..];
      if InScope(changes[i], scope, anchor) {
        r := r + [changes[i].public];
      }
      i := i + 1;
    }
  }

  // The public changes of one commit, read from the diff of its first parent.
  method CommitChanges(store: Store, scope: string, anchor: string, parent: Commit, commit: Commit)
      returns (r: Result<seq<PublicChange>>)
    requires ValidStore(store)
    ensures r == ChangesOf(store, scope, anchor, parent, commit)
  {
    var changes :- store.diff(parent, commit);
    var selected := FilterChanges(changes, scope, anchor);
    var sorted := SortSlice(selected, Key);
    forall p | p in sorted ensures WellFormed(p) {
      assert p in multiset(sorted) && p in selected;
    }
    CanonicalUnique(sorted, selected);
    return Success(sorted);
  }

  // Reads one commit and its first parent: where the walk is cut, the genesis rules, the changes.
  method ReadCommit(store: Store, scope: string, anchor: string, current: Commit, parents: seq<Commit>) returns (v: View)
    requires ValidStore(store)
    requires current in store.parents && parents == store.parents[current]
    ensures v == ViewOf(store, scope, anchor, current)
  {
    match store.health(current) {
      case Unreadable(code) => return Broken(code);
      case Inconsistent => return Cut;
      case Sound =>
    }
    if |parents| == 0 {
      return Genesis(false);
    }
    match store.health(parents[0]) {
      case Unreadable(code) => return Broken(code);
      case Inconsistent => return Genesis(true);
      case Sound =>
    }
    var changes := CommitChanges(store, scope, anchor, parents[0], current);
    if changes.Failure? {
      return Broken(changes.code);
    }
    return Listed(changes.value);
  }

  lemma EmitSnoc(store: Store, current: Commit, changes: seq<PublicChange>, first: nat, next: nat)
    requires first <= next < |changes|
    ensures Emit(store, current, changes[first..next + 1])
         == Emit(store, current, changes[first..next]) + [Entry(current, ParentsOf(store, current), Some(changes[next]))]
  {
    assert changes[first..next + 1] == changes[first..next] + [changes[next]];
  }

  // Appends changes from index first on until the page is full.
  method AppendChanges(store: Store, current: Commit, parents: seq<Commit>, changes: seq<PublicChange>, first: nat,
                       limit: nat, lastKey: string)
      returns (r: seq<Entry>, next: nat, key: string)
    requires parents == ParentsOf(store, current)
    requires first <= |changes|
    ensures first <= next <= |changes| && |r| <= limit
    ensures next == |changes| || |r| == limit
    ensures r == Emit(store, current, changes[first..next])
    ensures key == if next > first then Key(changes[next - 1]) else lastKey
  {
    r, next, key := [], first, lastKey;
    while next < |changes| && |r| < limit
      invariant first <= next <= |changes|
      invariant |r| <= limit && |r| == next - first
      invariant r == Emit(store, current, changes[first..next])
      invariant key == if next > first then Key(changes[next - 1]) else lastKey
    {
      EmitSnoc(store, current, changes, first, next);
      r := r + [Entry(current, parents, Some(changes[next]))];
      key := Key(changes[next]);
      next := next + 1;
    }
  }

  // Each page is the next slice of the flat history, whatever cursor the request carries.
  method EvolutionHistory(store: Store, resolve: string -> Result<Commit>, request: Request) returns (r: Result<Page>)
    requires ValidStore(store)
    ensures Answers(store, resolve, request, r)
  {
    var start := OpenRequest(store, resolve, request);
    if start.Failure? {
      return Failure(start.code);
    }
    var f := start.value;
    var limit := EffectiveLimit(request.limit).value;
    var page := FillPage(store, request.scope, f, limit);
    if page.Failure? {
      return Failure(page.code);
    }
    var (items, frontier) := page.value;
    match frontier {
      case None =>
        return Success(Page(f.root, items, None));
      case Some(g) =>
        return Success(Page(f.root, items, Some(Cursor(
          1, "history", request.root, f.root, request.scope, AnchorRef(request.filter), f.resolvedAnchor,
          ObjectName(request.filter), g.native, g.state, g.offset, g.lastKey))));
    }
  }

  ghost predicate Fills(store: Store, scope: string, f: Frontier, limit: nat, r: Result<(seq<Entry>, Option<Frontier>)>) {
    var rest := Rest(store, scope, f);
    if |rest.entries| >= limit then
      && r.Success? && r.value.0 == rest.entries[..limit]
      && match r.value.1
         case None => |rest.entries| == limit && rest.end == None
         case Some(g) => Issued(f, g) && Rest(store, scope, g) == Flat(rest.entries[limit..], rest.end)
    else
      match rest.end
      case Some(code) => r == Failure(code)
      case None => r == Success((rest.entries, None))
  }

  // g is a later frontier of the walk f belongs to.
  ghost predicate Issued(f: Frontier, g: Frontier) {
    && g == f.(state := g.state, offset := g.offset, lastKey := g.lastKey, native := g.native)
    && (if g.state == "" then g.lastKey == "" && g.native > 0 else g.offset >= 1 && g.lastKey != "")
  }

  datatype Step =
    | Failed(code: Code)
    | Ended(entries: seq<Entry>)
    | Filled(entries: seq<Entry>, next: Frontier)
    | Passed(entries: seq<Entry>, next: Frontier)

  ghost predicate StepOf(store: Store, scope: string, g: Frontier, room: nat, step: Step) {
    var rest := Rest(store, scope, g);
    match step
    case Failed(code) => rest == Flat([], Some(code))
    case Ended(entries) => rest == Flat(entries, None) && |entries| <= room
    case Filled(entries, next) =>
      |entries| == room && Issued(g, next) && rest == Prepend(entries, Rest(store, scope, next))
    case Passed(entries, next) =>
      && |entries| <= room && Issued(g, next) && next.state == ""
      && rest == Prepend(entries, Rest(store, scope, next))
      && (g.state == "" ==> g.root in store.log && g.native < next.native < |store.log[g.root]|)
  }

  // The walk stands at a commit it has just read; next is the native cursor behind it.
  ghost predicate AtCommit(store: Store, scope: string, g: Frontier, current: Commit, next: nat, view: View) {
    && current != "" && view == ViewOf(store, scope, g.anchor, current)
    && if g.state != "" then
         g.state == current && g.native == next && g.offset >= 1 && g.lastKey != ""
       else
         && g.root in store.log && g.native < |store.log[g.root]| && current == store.log[g.root][g.native]
         && next == if g.native + 1 < |store.log[g.root]| then g.native + 1 else 0
  }

  // What the walk still has to list there, read off the view.
  function Remaining(store: Store, scope: string, g: Frontier, current: Commit, next: nat, view: View): Flat {
    if g.state != "" then Resumed(store, scope, g, view)
    else FromView(store, scope, current, view, g.lastKey == "", 0, AfterNative(store, scope, g, next))
  }

  lemma RestAtCommit(store: Store, scope: string, g: Frontier, current: Commit, next: nat, view: View)
    requires AtCommit(store, scope, g, current, next, view)
    ensures Rest(store, scope, g) == Remaining(store, scope, g, current, next, view)
  {
    if g.state == "" {
      BehindCommit(store, scope, g, next);
      OneCommit(store, scope, g.anchor, g.root, g.native, g.lastKey == "", AfterNative(store, scope, g, next));
    }
  }

  ghost predicate Behind(store: Store, scope: string, anchor: string, root: Commit, position: nat, after: Flat)
    requires root in store.log
  {
    after == if position + 1 >= |store.log[root]| then Nothing else FlatFrom(store, scope, anchor, root, position + 1, true)
  }

  lemma BehindCommit(store: Store, scope: string, g: Frontier, next: nat)
    requires g.root in store.log && next == if g.native + 1 < |store.log[g.root]| then g.native + 1 else 0
    ensures Behind(store, scope, g.anchor, g.root, g.native, AfterNative(store, scope, g, next))
  {
  }

  lemma OneCommit(store: Store, scope: string, anchor: string, root: Commit, position: nat, bare: bool, after: Flat)
    requires root in store.log && position < |store.log[root]| && Behind(store, scope, anchor, root, position, after)
    ensures var commit := store.log[root][position];
            FlatFrom(store, scope, anchor, root, position, bare) ==
            FromView(store, scope, commit, ViewOf(store, scope, anchor, commit), bare, 0, after)
  {
  }

  lemma RestBetweenCommits(store: Store, scope: string, g: Frontier, next: nat)
    requires next > 0
    ensures Rest(store, scope, g.(state := "", offset := 0, lastKey := "", native := next))
         == AfterNative(store, scope, g, next)
  {
  }

  // Cutting a commit's changes at next leaves the frontier that resumes there.
  lemma RestAfterCut(store: Store, scope: string, g: Frontier, current: Commit, native: nat, view: View, first: nat, next: nat)
    requires AtCommit(store, scope, g, current, native, view)
    requires view.Listed? && first < next <= |view.changes|
    ensures Prepend(Emit(store, current, view.changes[first..]), AfterNative(store, scope, g, native)) ==
            Prepend(Emit(store, current, view.changes[first..next]),
                    Rest(store, scope, g.(state := current, offset := next, lastKey := Key(view.changes[next - 1]), native := native)))
  {
    var changes := view.changes;
    var h := g.(state := current, offset := next, lastKey := Key(changes[next - 1]), native := native);
    RestInside(store, scope, h, changes);
    EmitSplit(store, current, changes, first, next);
    PrependTwice(Emit(store, current, changes[first..next]), Emit(store, current, changes[next..]),
                 AfterNative(store, scope, g, native));
  }

  lemma RestInside(store: Store, scope: string, h: Frontier, changes: seq<PublicChange>)
    requires h.state != "" && ViewOf(store, scope, h.anchor, h.state) == Listed(changes)
    requires 0 < h.offset <= |changes| && h.lastKey == Key(changes[h.offset - 1])
    ensures Rest(store, scope, h)
         == Prepend(Emit(store, h.state, changes[h.offset..]), AfterNative(store, scope, h, h.native))
  {
  }

  lemma EmitSplit(store: Store, current: Commit, changes: seq<PublicChange>, first: nat, next: nat)
    requires first <= next <= |changes|
    ensures Emit(store, current, changes[first..])
         == Emit(store, current, changes[first..next]) + Emit(store, current, changes[next..])
  {
  }

  lemma PrependTwice(a: seq<Entry>, b: seq<Entry>, rest: Flat)
    ensures Prepend(a, Prepend(b, rest)) == Prepend(a + b, rest)
  {
    assert a + (b + rest.entries) == a + b + rest.entries;
  }

  // One round of the paging loop: one commit is listed as far as the page has room.
  method ListCommit(store: Store, scope: string, g: Frontier, room: nat) returns (step: Step)
    requires ValidStore(store)
    requires room > 0
    requires g.state != "" ==> g.offset >= 1 && g.lastKey != ""
    ensures StepOf(store, scope, g, room, step)
  {
    var current, parents, nextNative := g.state, [], g.native;
    if g.state != "" {
      if current !in store.parents {
        return Failed(ObjectNotFound);
      }
      parents := store.parents[current];
    } else {
      var entries := Log(store, g.root, 1, g.native);
      if entries.Failure? {
        return Failed(entries.code);
      }
      if |entries.value| == 0 {
        return Ended([]);
      }
      current, parents, nextNative := entries.value[0].commit, entries.value[0].parents, entries.value[0].cursor;
      assert current == store.log[g.root][g.native];
    }
    var view := ReadCommit(store, scope, g.anchor, current, parents);
    step := EmitCommit(store, scope, g, room, current, parents, nextNative, view);
  }

  // Lists a commit that has been read; view already holds its changes in order.
  method EmitCommit(store: Store, scope: string, g: Frontier, room: nat,
                    current: Commit, parents: seq<Commit>, nextNative: nat, view: View) returns (step: Step)
    requires room > 0 && parents == ParentsOf(store, current)
    requires AtCommit(store, scope, g, current, nextNative, view)
    ensures StepOf(store, scope, g, room, step)
  {
    RestAtCommit(store, scope, g, current, nextNative, view);
    if view.Broken? {
      return Failed(view.code);
    }
    if view.Cut? {
      return Ended([]);
    }
    var changes := if view.Listed? then view.changes else [];
    var first := 0;
    if g.state == current {
      var offset := ValidatedChangeOffset(changes, g.offset, g.lastKey);
      if offset.Failure? {
        return Failed(offset.code);
      }
      first := offset.value;
    }
    var items: seq<Entry> := [];
    if view.Genesis? || (|changes| == 0 && scope == "all") {
      if g.lastKey == "" {
        items := [Entry(current, parents, None)];
      }
    } else {
      var next, key;
      items, next, key := AppendChanges(store, current, parents, changes, first, room, g.lastKey);
      if |items| == room && next < |changes| {
        RestAfterCut(store, scope, g, current, nextNative, view, first, next);
        return Filled(items, g.(state := current, offset := next, lastKey := key, native := nextNative));
      }
    }
    assert items == Shown(store, scope, current, view, g.lastKey == "", first);
    if view == Genesis(true) || nextNative == 0 {
      return Ended(items);
    }
    RestBetweenCommits(store, scope, g, nextNative);
    return Passed(items, g.(state := "", offset := 0, lastKey := "", native := nextNative));
  }

  // What has been listed so far, followed by what g still has to list, is the page's share.
  ghost predicate Walked(store: Store, scope: string, f: Frontier, items: seq<Entry>, g: Frontier) {
    && ((g == f && items == []) || (Issued(f, g) && g.state == ""))
    && Rest(store, scope, f) == Prepend(items, Rest(store, scope, g))
  }

  lemma WalkOn(store: Store, scope: string, f: Frontier, items: seq<Entry>, g: Frontier, room: nat, step: Step)
    requires Walked(store, scope, f, items, g) && StepOf(store, scope, g, room, step)
    requires step.Passed?
    ensures Walked(store, scope, f, items + step.entries, step.next)
  {
    PrependTwice(items, step.entries, Rest(store, scope, step.next));
  }

  lemma WalkStops(store: Store, scope: string, f: Frontier, items: seq<Entry>, g: Frontier, limit: nat, step: Step)
    requires Walked(store, scope, f, items, g) && |items| < limit
    requires StepOf(store, scope, g, limit - |items|, step)
    ensures step.Failed? ==> Fills(store, scope, f, limit, Failure(step.code))
    ensures step.Ended? ==> Fills(store, scope, f, limit, Success((items + step.entries, None)))
    ensures step.Filled? ==> Fills(store, scope, f, limit, Success((items + step.entries, Some(step.next))))
  {
    if step.Ended? {
      var all := items + step.entries;
      assert all[..|all|] == all;
    } else if step.Filled? {
      PrependTwice(items, step.entries, Rest(store, scope, step.next));
    }
  }

  lemma WalkFills(store: Store, scope: string, f: Frontier, items: seq<Entry>, g: Frontier, limit: nat)
    requires Walked(store, scope, f, items, g) && |items| == limit > 0
    ensures Fills(store, scope, f, limit, Success((items, Some(g))))
  {
  }

  // The paging loop.
  method FillPage(store: Store, scope: string, f: Frontier, limit: nat) returns (r: Result<(seq<Entry>, Option<Frontier>)>)
    requires ValidStore(store)
    requires limit > 0
    requires f.state != "" ==> f.offset >= 1 && f.lastKey != ""
    ensures Fills(store, scope, f, limit, r)
  {
    var g := f;
    var items: seq<Entry> := [];
    while |items| < limit
      invariant |items| <= limit
      invariant Walked(store, scope, f, items, g)
      decreases if g.state == "" then 0 else 1,
                if g.root in store.log && g.native <= |store.log[g.root]| then |store.log[g.root]| - g.native else 0
    {
      var step := ListCommit(store, scope, g, limit - |items|);
      if step.Passed? {
        WalkOn(store, scope, f, items, g, limit - |items|, step);
        items, g := items + step.entries, step.next;
      } else {
        WalkStops(store, scope, f, items, g, limit, step);
        match step {
          case Failed(code) => return Failure(code);
          case Ended(entries) => return Success((items + entries, None));
          case Filled(entries, next) => return Success((items + entries, Some(next)));
        }
      }
    }
    WalkFills(store, scope, f, items, g, limit);
    return Success((items, Some(g)));
  }

  // ----- whole walks: following cursors lists the flat history

  // One call: how names resolved at that moment, what was asked, what came back.
  datatype Exchange = Exchange(resolve: string -> Result<Commit>, request: Request, page: Page)

  ghost predicate SameQuery(a: Request, b: Request) {
    a.root == b.root && a.scope == b.scope && a.filter == b.filter
  }

  ghost predicate PassesOn(x: Exchange, next: Exchange) {
    SameQuery(x.request, next.request) && x.page.cursor.Some? && next.request.cursor == x.page.cursor
  }

  // Successive calls, each passing on the cursor of the page before. Limits, and whatever the
  // names resolve to, may change from call to call.
  ghost predicate Follows(store: Store, xs: seq<Exchange>) {
    && xs != [] && Answers(store, xs[0].resolve, xs[0].request, Success(xs[0].page))
    && (|xs| > 1 ==> PassesOn(xs[0], xs[1]) && Follows(store, xs[1..]))
  }

  function AllItems(xs: seq<Exchange>): seq<Entry> {
    if xs == [] then [] else xs[0].page.items + AllItems(xs[1..])
  }

  ghost predicate OpenedFor(store: Store, request: Request, f: Frontier) {
    AnchorIdentity(store, request.filter, f.resolvedAnchor) == Success(f.anchor)
  }

  // A page's cursor reopens the query exactly where the page stopped, even if names have moved.
  lemma CursorReopens(store: Store, x: Exchange, f: Frontier, next: Exchange)
    requires Open(store, x.resolve, x.request) == Success(f) && OpenedFor(store, x.request, f)
    requires PassesOn(x, next) && Denotes(x.request, f, x.page.cursor.value)
    requires Open(store, next.resolve, next.request).Success?
    ensures Open(store, next.resolve, next.request) == Success(Moved(f, x.page.cursor.value))
    ensures OpenedFor(store, next.request, Moved(f, x.page.cursor.value))
  {
  }

  lemma SplitEntries(rest: Flat, limit: nat)
    requires limit <= |rest.entries|
    ensures rest == Prepend(rest.entries[..limit], Flat(rest.entries[limit..], rest.end))
    ensures limit == |rest.entries| ==> rest.entries[..limit] == rest.entries
  {
    assert rest.entries[..limit] + rest.entries[limit..] == rest.entries;
  }

  lemma SliceIsPrefix(store: Store, request: Request, f: Frontier, rest: Flat, limit: nat, page: Page)
    requires limit > 0 && Slice(store, request, f, rest, limit, Success(page))
    ensures match page.cursor
            case None => rest == Flat(page.items, None)
            case Some(cursor) =>
              && Denotes(request, f, cursor) && |page.items| == limit
              && rest == Prepend(page.items, Rest(store, request.scope, Moved(f, cursor)))
  {
    if |rest.entries| >= limit {
      SplitEntries(rest, limit);
    }
  }

  // One answered call: the page is a prefix of what was left, and a cursor stands for the remainder.
  lemma PageIsPrefix(store: Store, x: Exchange, f: Frontier)
    requires Open(store, x.resolve, x.request) == Success(f)
    requires Answers(store, x.resolve, x.request, Success(x.page))
    ensures var rest := Rest(store, x.request.scope, f);
            match x.page.cursor
            case None => rest == Flat(x.page.items, None)
            case Some(cursor) =>
              && Denotes(x.request, f, cursor)
              && EffectiveLimit(x.request.limit) == Success(|x.page.items|) && |x.page.items| > 0
              && rest == Prepend(x.page.items, Rest(store, x.request.scope, Moved(f, cursor)))
  {
    SliceIsPrefix(store, x.request, f, Rest(store, x.request.scope, f), EffectiveLimit(x.request.limit).value, x.page);
  }

  // A page that carries a cursor is exactly full.
  ghost predicate FullPage(x: Exchange) {
    x.page.cursor.Some? ==> EffectiveLimit(x.request.limit) == Success(|x.page.items|)
  }

  // The two ways a walk can stand, on plain lists.
  ghost predicate Assembled(xs: seq<Exchange>, rest: Flat) {
    && xs != [] && |xs| - 1 <= |rest.entries|
    && match xs[|xs| - 1].page.cursor
       case None => AllItems(xs) == rest.entries && rest.end == None
       case Some(_) => AllItems(xs) <= rest.entries
  }

  lemma AssembleLast(x: Exchange, rest: Flat, next: Flat)
    requires match x.page.cursor
             case None => rest == Flat(x.page.items, None)
             case Some(_) => rest == Prepend(x.page.items, next)
    ensures Assembled([x], rest)
  {
    assert AllItems([x]) == x.page.items + AllItems([]);
  }

  lemma AssembleMore(xs: seq<Exchange>, rest: Flat, next: Flat)
    requires |xs| > 1 && Assembled(xs[1..], next) && |xs[0].page.items| > 0
    requires rest == Prepend(xs[0].page.items, next)
    ensures Assembled(xs, rest)
  {
    assert xs[1..][|xs[1..]| - 1] == xs[|xs| - 1];
  }

  lemma {:induction false} WalkFrom(store: Store, xs: seq<Exchange>, f: Frontier)
    requires Follows(store, xs)
    requires Open(store, xs[0].resolve, xs[0].request) == Success(f) && OpenedFor(store, xs[0].request, f)
    ensures Assembled(xs, Rest(store, xs[0].request.scope, f))
  {
    var scope := xs[0].request.scope;
    PageIsPrefix(store, xs[0], f);
    if |xs| == 1 {
      var next := if xs[0].page.cursor.Some? then Rest(store, scope, Moved(f, xs[0].page.cursor.value)) else Nothing;
      AssembleLast(xs[0], Rest(store, scope, f), next);
      assert xs == [xs[0]];
    } else {
      var g := NextFrontier(store, xs, f);
      WalkFrom(store, xs[1..], g);
      AssembleMore(xs, Rest(store, scope, f), Rest(store, scope, g));
    }
  }

  lemma NextFrontier(store: Store, xs: seq<Exchange>, f: Frontier) returns (g: Frontier)
    requires Follows(store, xs) && |xs| > 1
    requires Open(store, xs[0].resolve, xs[0].request) == Success(f) && OpenedFor(store, xs[0].request, f)
    ensures xs[0].page.cursor.Some? && g == Moved(f, xs[0].page.cursor.value)
    ensures Open(store, xs[1].resolve, xs[1].request) == Success(g) && OpenedFor(store, xs[1].request, g)
  {
    PageIsPrefix(store, xs[0], f);
    LimitChecked(store, xs[1]);
    CursorReopens(store, xs[0], f, xs[1]);
    g := Moved(f, xs[0].page.cursor.value);
  }

  lemma CursorPageIsFull(store: Store, x: Exchange)
    requires Answers(store, x.resolve, x.request, Success(x.page))
    ensures FullPage(x)
  {
    LimitChecked(store, x);
    PageIsPrefix(store, x, Open(store, x.resolve, x.request).value);
  }

  lemma FirstPageIsFull(store: Store, xs: seq<Exchange>)
    requires Follows(store, xs)
    ensures FullPage(xs[0])
  {
    CursorPageIsFull(store, xs[0]);
  }

  ghost predicate AllFull(xs: seq<Exchange>) {
    xs == [] || (FullPage(xs[0]) && AllFull(xs[1..]))
  }

  lemma {:induction false} EachFull(xs: seq<Exchange>, i: nat)
    requires AllFull(xs) && i < |xs|
    ensures FullPage(xs[i])
  {
    if i > 0 {
      EachFull(xs[1..], i - 1);
    }
  }

  lemma AllFullEach(xs: seq<Exchange>)
    requires AllFull(xs)
    ensures forall i :: 0 <= i < |xs| ==> FullPage(xs[i])
  {
    forall i | 0 <= i < |xs| ensures FullPage(xs[i]) {
      EachFull(xs, i);
    }
  }

  lemma {:induction false} WalkFillsPages(store: Store, xs: seq<Exchange>)
    requires Follows(store, xs)
    ensures AllFull(xs)
  {
    FirstPageIsFull(store, xs);
    if |xs| > 1 {
      WalkFillsPages(store, xs[1..]);
    }
  }

  lemma LimitChecked(store: Store, x: Exchange)
    requires Answers(store, x.resolve, x.request, Success(x.page))
    ensures Open(store, x.resolve, x.request).Success? && EffectiveLimit(x.request.limit).Success?
  {
  }

  // The main result: a finished walk over any page limits is the flat history of the root the
  // first call resolved; an unfinished one is a prefix of it. A walk that finishes met no error, a
  // page that carries a cursor is full, and there are at most as many such pages as entries.
  lemma WalkListsHistory(store: Store, xs: seq<Exchange>)
    requires Follows(store, xs) && xs[0].request.cursor == None
    ensures Open(store, xs[0].resolve, xs[0].request).Success?
    ensures var f := Open(store, xs[0].resolve, xs[0].request).value;
            Assembled(xs, FlatHistory(store, xs[0].request.scope, f.anchor, f.root))
    ensures forall i :: 0 <= i < |xs| ==> FullPage(xs[i])
  {
    LimitChecked(store, xs[0]);
    var f := Open(store, xs[0].resolve, xs[0].request).value;
    WalkFrom(store, xs, f);
    WalkFillsPages(store, xs);
    AllFullEach(xs);
  }
}
