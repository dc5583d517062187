// Reading a whole pinned Ontology page by page: renderOverview, renderDomain and paginateSummaries
// (internal/kernel/read.go), and the preview's paginate, registerSummary and collect
// (internal/mcpserver/preview.go).

module Listings {
  import opened Outcomes
  import opened Text
  import opened Sorting
  import opened Model
  import opened BindingGraph
  import opened ChangeOrder

  datatype Summary = Summary(ref: Ref, title: Option<string>, description: Option<string>)

  function SummaryOf(ref: Ref, value: Value): Summary {
    match value
    case DomainValue(d) => Summary(ref, d.title, d.description)
    case DefinitionValue(d) => Summary(ref, d.title, d.description)
  }

  // sortSummaries: by kind, then by Ref.
  function SummaryKey(s: Summary): string {
    KindName(s.ref.kind) + ([NUL] + RefKey(s.ref))
  }

  lemma KindNameClean(kind: Kind)
    ensures NUL !in KindName(kind)
  {
  }

  lemma SummaryKeyInjective(a: Summary, b: Summary)
    requires SummaryKey(a) == SummaryKey(b)
    ensures a.ref == b.ref
  {
    KindNameClean(a.ref.kind);
    KindNameClean(b.ref.kind);
    FirstPart(KindName(a.ref.kind), RefKey(a.ref), KindName(b.ref.kind), RefKey(b.ref));
    RefKeyInjective(a.ref, b.ref);
  }

  lemma FirstPart(a: string, s: string, b: string, t: string)
    requires NUL !in a && NUL !in b && a + ([NUL] + s) == b + ([NUL] + t)
    ensures a == b && s == t
  {
    var x, y := a + ([NUL] + s), b + ([NUL] + t);
    assert x[|a|] == NUL && y[|b|] == NUL;
    assert forall k :: 0 <= k < |a| ==> x[k] == a[k] && a[k] in a;
    assert forall k :: 0 <= k < |b| ==> y[k] == b[k] && b[k] in b;
    assert |a| == |b|;
    assert x[..|a|] == a && y[..|b|] == b;
    assert x[|a| + 1..] == s && y[|b| + 1..] == t;
  }

  // ----- what a scope contains

  datatype Scope = Overview | Members(domain: Ref)

  predicate InSomeDomain(objects: Objects, r: Ref) {
    exists d :: d in objects && HasMember(objects, d, r)
  }

  // The overview shows every Domain and the Definitions no Domain includes.
  predicate InScope(objects: Objects, scope: Scope, r: Ref) {
    r in objects &&
    match scope
    case Overview => objects[r].DomainValue? || !InSomeDomain(objects, r)
    case Members(d) => HasMember(objects, d, r)
  }

  // The one list of a scope: each summary once, in order.
  ghost predicate IsListing(objects: Objects, scope: Scope, items: seq<Summary>) {
    && (forall i {:trigger items[i]} :: 0 <= i < |items| ==>
         InScope(objects, scope, items[i].ref) && items[i] == SummaryOf(items[i].ref, objects[items[i].ref]))
    && (forall r {:trigger InScope(objects, scope, r)} :: InScope(objects, scope, r) ==> SummaryOf(r, objects[r]) in items)
    && Distinct(items) && Ordered(items, SummaryKey)
  }

  lemma ListingKeys(objects: Objects, scope: Scope, items: seq<Summary>)
    requires IsListing(objects, scope, items)
    ensures KeyDetermines(items, SummaryKey)
  {
    forall i, j | 0 <= i < |items| && 0 <= j < |items| && SummaryKey(items[i]) == SummaryKey(items[j]) ensures items[i] == items[j] {
      SummaryKeyInjective(items[i], items[j]);
    }
  }

  lemma ListedAlike(objects: Objects, scope: Scope, a: seq<Summary>, b: seq<Summary>)
    requires IsListing(objects, scope, a) && IsListing(objects, scope, b)
    ensures multiset(a) == multiset(b)
  {
    forall s ensures multiset(a)[s] == multiset(b)[s] {
      CountsOnce(a, s);
      CountsOnce(b, s);
      if s in a {
        var i :| 0 <= i < |a| && a[i] == s;
      }
      if s in b {
        var i :| 0 <= i < |b| && b[i] == s;
      }
    }
  }

  // A listing shows each object of its scope under its own title and description, and nothing else: the overview
  // every Domain and the Definitions that are no Domain's member, a Domain's list its members.
  lemma ListingShows(objects: Objects, scope: Scope, items: seq<Summary>, r: Ref)
    requires IsListing(objects, scope, items)
    ensures (exists i :: 0 <= i < |items| && items[i].ref == r) <==>
              && r in objects
              && match scope
                 case Overview =>
                   objects[r].DomainValue? || forall d :: d in objects && objects[d].DomainValue? ==> To(r) !in objects[d].domain.includes
                 case Members(d) => d in objects && objects[d].DomainValue? && To(r) in objects[d].domain.includes
    ensures forall i :: 0 <= i < |items| && items[i].ref == r ==>
              && r in objects
              && (objects[r].DomainValue? ==> items[i] == Summary(r, objects[r].domain.title, objects[r].domain.description))
              && (objects[r].DefinitionValue? ==> items[i] == Summary(r, objects[r].definition.title, objects[r].definition.description))
  {
    if exists i :: 0 <= i < |items| && items[i].ref == r {
      var i :| 0 <= i < |items| && items[i].ref == r;
      assert InScope(objects, scope, items[i].ref);
    }
    assert InScope(objects, scope, r) <==>
      && r in objects
      && match scope
         case Overview => objects[r].DomainValue? || forall d :: d in objects ==> !HasMember(objects, d, r)
         case Members(d) => HasMember(objects, d, r);
    if InScope(objects, scope, r) {
      assert SummaryOf(r, objects[r]) in items;
    }
  }

  // Every read of a scope shows the same list, whatever order the maps are walked in.
  lemma ListingUnique(objects: Objects, scope: Scope, a: seq<Summary>, b: seq<Summary>)
    requires IsListing(objects, scope, a) && IsListing(objects, scope, b)
    ensures a == b
  {
    ListedAlike(objects, scope, a, b);
    ListingKeys(objects, scope, a);
    OrderedUnique(a, b, SummaryKey);
  }
}

module Reader {
  import opened Outcomes
  import opened Sorting
  import opened Model
  import opened BindingGraph
  import opened Listings

  // The cursor a page ends with; a next page starts from it.
  datatype Cursor = Cursor(state: string, scope: Scope, offset: int)

  datatype Page = Page(ref: Option<Ref>, items: seq<Summary>, total: nat, cursor: Option<Cursor>)

  // paginateSummaries.
  method PaginateSummaries(state: string, scope: Scope, items: seq<Summary>, limit: nat, cursor: Option<Cursor>)
      returns (r: Result<(seq<Summary>, Option<Cursor>)>)
    requires limit > 0
    ensures r.Success? <==> (cursor.Some? ==> cursor.value.state == state && cursor.value.scope == scope && 0 <= cursor.value.offset <= |items|)
    ensures r.Failure? ==> r.code == InvalidArgument
    ensures r.Success? ==>
              var offset := if cursor.Some? then cursor.value.offset else 0;
              var end := if offset + limit < |items| then offset + limit else |items|;
              r.value == (items[offset..end], if end == |items| then None else Some(Cursor(state, scope, end)))
  {
    var offset := 0;
    if cursor.Some? {
      var c := cursor.value;
      if c.state != state || c.scope != scope || c.offset < 0 || c.offset > |items| {
        return Failure(InvalidArgument);
      }
      offset := c.offset;
    }
    var end := offset + limit;
    if end > |items| {
      end := |items|;
    }
    if end == |items| {
      return Success((items[offset..end], None));
    }
    return Success((items[offset..end], Some(Cursor(state, scope, end))));
  }

  // What the read of one scope would list, before it is sorted.
  ghost predicate Gathered(objects: Objects, scope: Scope, items: seq<Summary>) {
    && (forall i {:trigger items[i]} :: 0 <= i < |items| ==>
         InScope(objects, scope, items[i].ref) && items[i] == SummaryOf(items[i].ref, objects[items[i].ref]))
    && (forall r {:trigger InScope(objects, scope, r)} :: InScope(objects, scope, r) ==> SummaryOf(r, objects[r]) in items)
    && Distinct(items)
  }

  lemma GatheredSorted(objects: Objects, scope: Scope, items: seq<Summary>, sorted: seq<Summary>)
    requires Gathered(objects, scope, items) && multiset(sorted) == multiset(items) && Ordered(sorted, SummaryKey)
    ensures IsListing(objects, scope, sorted)
  {
    forall s ensures multiset(sorted)[s] <= 1 && (s in sorted <==> s in items) {
      CountsOnce(items, s);
      assert s in sorted <==> s in multiset(sorted);
      assert s in items <==> s in multiset(items);
    }
    DistinctByCount(sorted);
    forall i | 0 <= i < |sorted|
      ensures InScope(objects, scope, sorted[i].ref) && sorted[i] == SummaryOf(sorted[i].ref, objects[sorted[i].ref])
    {
      assert sorted[i] in items;
      var j :| 0 <= j < |items| && items[j] == sorted[i];
    }
  }

  method OverviewItems(objects: Objects) returns (items: seq<Summary>)
    ensures Gathered(objects, Overview, items)
  {
    items := [];
    var todo := objects.Keys;
    while todo != {}
      invariant todo <= objects.Keys
      invariant forall i {:trigger items[i]} :: 0 <= i < |items| ==>
        InScope(objects, Overview, items[i].ref) && items[i].ref !in todo && items[i] == SummaryOf(items[i].ref, objects[items[i].ref])
      invariant forall r {:trigger InScope(objects, Overview, r)} :: InScope(objects, Overview, r) && r !in todo ==> SummaryOf(r, objects[r]) in items
      invariant Distinct(items)
      decreases |todo|
    {
      var r :| r in todo;
      todo := todo - {r};
      if objects[r].DomainValue? || !InSomeDomain(objects, r) {
        items := items + [SummaryOf(r, objects[r])];
      }
    }
  }

  method DomainItems(objects: Objects, d: Ref) returns (r: Result<seq<Summary>>)
    requires WellFormed(objects) && d in objects && objects[d].DomainValue?
    ensures r.Success? && Gathered(objects, Members(d), r.value) && |r.value| == |objects[d].domain.includes|
  {
    assert WellFormedObject(objects, objects[d]);
    var includes := objects[d].domain.includes;
    var items: seq<Summary> := [];
    var k := 0;
    while k < |includes|
      invariant 0 <= k <= |includes| && |items| == k
      invariant forall i {:trigger items[i]} :: 0 <= i < k ==>
        includes[i].To? && includes[i].ref in objects && items[i] == SummaryOf(includes[i].ref, objects[includes[i].ref])
    {
      assert includes[k] in includes;
      if includes[k].New? || includes[k].ref !in objects {
        return Failure(Consistency);
      }
      items := items + [SummaryOf(includes[k].ref, objects[includes[k].ref])];
      k := k + 1;
    }
    forall q | InScope(objects, Members(d), q) ensures SummaryOf(q, objects[q]) in items {
      var i :| 0 <= i < |includes| && includes[i] == To(q);
      assert items[i] == SummaryOf(q, objects[q]);
    }
    return Success(items);
  }

  // One page of the pinned State: renderOverview or renderDomain.
  method ReadOntology(objects: Objects, state: string, scope: Scope, limit: nat, cursor: Option<Cursor>, ghost listing: seq<Summary>)
      returns (r: Result<Page>)
    requires WellFormed(objects) && limit > 0 && IsListing(objects, scope, listing)
    ensures r.Success? <==>
              && (scope.Members? ==> scope.domain in objects && objects[scope.domain].DomainValue?)
              && (cursor.Some? ==> cursor.value.state == state && cursor.value.scope == scope && 0 <= cursor.value.offset <= |listing|)
    ensures r.Success? ==>
              var offset := if cursor.Some? then cursor.value.offset else 0;
              var end := if offset + limit < |listing| then offset + limit else |listing|;
              && r.value.ref == (if scope.Members? then Some(scope.domain) else None)
              && r.value.items == listing[offset..end] && r.value.total == |listing|
              && r.value.cursor == if end == |listing| then None else Some(Cursor(state, scope, end))
  {
    var items: seq<Summary>;
    match scope {
      case Overview => items := OverviewItems(objects);
      case Members(d) =>
        if d !in objects || objects[d].DefinitionValue? {
          return Failure(ObjectNotFound);
        }
        var members := DomainItems(objects, d);
        if members.Failure? {
          return Failure(Consistency);
        }
        items := members.value;
    }
    var sorted := SortSlice(items, SummaryKey);
    GatheredSorted(objects, scope, items, sorted);
    ListingUnique(objects, scope, sorted, listing);
    var page := PaginateSummaries(state, scope, sorted, limit, cursor);
    if page.Failure? {
      return Failure(page.code);
    }
    return Success(Page(if scope.Members? then Some(scope.domain) else None, page.value.0, |sorted|, page.value.1));
  }

  lemma ListingExists(objects: Objects, scope: Scope) returns (listing: seq<Summary>)
    ensures IsListing(objects, scope, listing)
  {
    var shown := set r | r in objects && InScope(objects, scope, r);
    var items := Gather(objects, scope, shown);
    listing := Sorted(items, SummaryKey);
    SortedOrdered(items, SummaryKey);
    GatheredSorted(objects, scope, items, listing);
  }

  lemma {:induction false} Gather(objects: Objects, scope: Scope, shown: set<Ref>) returns (items: seq<Summary>)
    requires forall r :: r in shown ==> r in objects
    ensures Distinct(items)
    ensures forall i {:trigger items[i]} :: 0 <= i < |items| ==> items[i].ref in shown && items[i] == SummaryOf(items[i].ref, objects[items[i].ref])
    ensures forall r :: r in shown ==> SummaryOf(r, objects[r]) in items
  {
    items := [];
    if shown != {} {
      var r :| r in shown;
      var rest := Gather(objects, scope, shown - {r});
      items := [SummaryOf(r, objects[r])] + rest;
      forall q | q in shown ensures SummaryOf(q, objects[q]) in items {
        if q == r {
          assert items[0] == SummaryOf(r, objects[r]);
        }
      }
    }
  }
}

module Preview {
  import opened Outcomes
  import opened Sizes
  import opened Sorting
  import opened Model
  import opened BindingGraph
  import opened Listings
  import opened Reader

  const PageSize := 100

  datatype Fault = Resource | Rejected(code: Code)

  datatype Outcome<+T> = Done(value: T) | Stopped(fault: Fault)

  lemma Joined<T>(s: seq<T>, n: nat, end: nat)
    requires n <= end <= |s|
    ensures s[..n] + s[n..end] == s[..end] && s[..|s|] == s
  {
  }

  // A complete listing, or none: exactly when it is within the budget.
  method Paginate(objects: Objects, state: string, scope: Scope, maxItems: nat, ghost listing: seq<Summary>) returns (r: Outcome<seq<Summary>>)
    requires WellFormed(objects) && IsListing(objects, scope, listing)
    requires scope.Members? ==> scope.domain in objects && objects[scope.domain].DomainValue?
    ensures r == if |listing| <= maxItems then Done(listing) else Stopped(Resource)
  {
    var visited: set<Cursor> := {};
    var cursor: Option<Cursor> := None;
    var items: seq<Summary> := [];
    while true
      invariant |items| <= |listing| && |items| <= maxItems && items == listing[..|items|]
      invariant cursor == (if items == [] then None else Some(Cursor(state, scope, |items|)))
      invariant cursor.Some? ==> |items| < |listing|
      invariant forall c :: c in visited ==> c.offset <= |items|
      decreases |listing| - |items|
    {
      var page := ReadOntology(objects, state, scope, PageSize, cursor, listing);
      if page.Failure? {
        return Stopped(Rejected(InvalidArgument));
      }
      var current := page.value;
      if scope.Members? && current.ref != Some(scope.domain) {
        return Stopped(Resource);
      }
      if |items| + |current.items| > maxItems {
        return Stopped(Resource);
      }
      Joined(listing, |items|, |items| + |current.items|);
      items := items + current.items;
      if current.cursor.None? {
        if |items| != current.total {
          return Stopped(Resource);
        }
        return Done(items);
      }
      if |current.items| == 0 || current.cursor.value in visited {
        return Stopped(Resource);
      }
      visited := visited + {current.cursor.value};
      cursor := current.cursor;
    }
  }

  // ----- collecting everything reachable

  // What has been registered: part of the State, as it is there.
  ghost predicate Registered(objects: Objects, store: map<Ref, Summary>, domains: bool) {
    forall r :: r in store ==> r in objects && objects[r].DomainValue? == domains && store[r] == SummaryOf(r, objects[r])
  }

  method RegisterSummary(store: map<Ref, Summary>, item: Summary, maxItems: nat) returns (r: Outcome<(map<Ref, Summary>, bool)>)
    requires item.ref in store ==> store[item.ref].ref == item.ref
    ensures item.ref in store ==> r == Done((store, false))
    ensures item.ref !in store && |store| < maxItems ==> r == Done((store[item.ref := item], true))
    ensures item.ref !in store && |store| >= maxItems ==> r == Stopped(Resource)
  {
    if item.ref in store {
      var before := store[item.ref];
      if before.ref.kind != item.ref.kind || before.ref.name != item.ref.name {
        return Stopped(Resource);
      }
      return Done((store, false));
    }
    if |store| >= maxItems {
      return Stopped(Resource);
    }
    return Done((store[item.ref := item], true));
  }

  // The collector's variables.
  datatype Collection = Collection(domains: map<Ref, Summary>, definitions: map<Ref, Summary>,
                                   members: map<Ref, seq<Summary>>, queue: seq<Ref>)

  function Seen(c: Collection): set<Ref> {
    c.domains.Keys + c.definitions.Keys
  }

  // Every registered Domain is either listed already or waits in the queue, and the members of the
  // listed ones are registered, but for the Domain whose members are being registered now.
  ghost predicate Sound(objects: Objects, c: Collection, busy: Option<Ref>) {
    && Registered(objects, c.domains, true) && Registered(objects, c.definitions, false)
    && Distinct(c.queue) && (forall r :: r in c.queue ==> r in c.domains && r !in c.members)
    && (forall r :: r in c.domains ==> r in c.queue || r in c.members)
    && (forall d {:trigger c.members[d]} :: d in c.members ==> d in c.domains && IsListing(objects, Members(d), c.members[d]))
    && (forall d, r {:trigger HasMember(objects, d, r)} :: d in c.members && Some(d) != busy && HasMember(objects, d, r) ==> r in Seen(c))
  }

  // Nothing was left out for want of room.
  ghost predicate Fits(objects: Objects, maxItems: nat) {
    |objects| <= maxItems && forall d {:trigger objects[d]} :: d in objects && objects[d].DomainValue? ==> |objects[d].domain.includes| <= maxItems
  }

  method Classify(objects: Objects, c: Collection, item: Summary, maxItems: nat, ghost busy: Option<Ref>) returns (r: Outcome<Collection>)
    requires Sound(objects, c, busy) && |Seen(c)| <= maxItems
    requires WellNamed(objects) && item.ref in objects && item == SummaryOf(item.ref, objects[item.ref])
    ensures r.Stopped? ==> !Fits(objects, maxItems)
    ensures r.Done? ==>
              && Sound(objects, r.value, busy) && Seen(r.value) == Seen(c) + {item.ref} && r.value.members == c.members && |Seen(r.value)| <= maxItems
  {
    SeenWithin(objects, c, busy);
    assert RefOf(objects[item.ref]) == item.ref;
    match item.ref.kind {
      case DomainKind =>
        var registered := RegisterSummary(c.domains, item, maxItems);
        if registered.Stopped? {
          TooMany(objects, c, item.ref, maxItems, busy);
          return Stopped(registered.fault);
        }
        var next := c.(domains := registered.value.0, queue := if registered.value.1 then c.queue + [item.ref] else c.queue);
        if |next.domains| + |next.definitions| > maxItems {
          TooMany(objects, c, item.ref, maxItems, busy);
          return Stopped(Resource);
        }
        ClassifiedDomain(objects, c, item, next, busy);
        return Done(next);
      case NodeDefinition =>
        r := ClassifyDefinition(objects, c, item, maxItems, busy);
      case RelationshipDefinition =>
        r := ClassifyDefinition(objects, c, item, maxItems, busy);
      case _ =>
        return Stopped(Resource);
    }
  }

  method ClassifyDefinition(objects: Objects, c: Collection, item: Summary, maxItems: nat, ghost busy: Option<Ref>) returns (r: Outcome<Collection>)
    requires Sound(objects, c, busy) && |Seen(c)| <= maxItems
    requires item.ref in objects && objects[item.ref].DefinitionValue? && item == SummaryOf(item.ref, objects[item.ref])
    ensures r.Stopped? ==> !Fits(objects, maxItems)
    ensures r.Done? ==>
              && Sound(objects, r.value, busy) && Seen(r.value) == Seen(c) + {item.ref} && r.value.members == c.members && |Seen(r.value)| <= maxItems
  {
    SeenWithin(objects, c, busy);
    var registered := RegisterSummary(c.definitions, item, maxItems);
    if registered.Stopped? {
      TooMany(objects, c, item.ref, maxItems, busy);
      return Stopped(registered.fault);
    }
    var next := c.(definitions := registered.value.0);
    if |next.domains| + |next.definitions| > maxItems {
      TooMany(objects, c, item.ref, maxItems, busy);
      return Stopped(Resource);
    }
    ClassifiedDefinition(objects, c, item, next, busy);
    return Done(next);
  }

  lemma SeenWithin(objects: Objects, c: Collection, busy: Option<Ref>)
    requires Sound(objects, c, busy)
    ensures Seen(c) <= objects.Keys && |Seen(c)| == |c.domains| + |c.definitions| && |Seen(c)| <= |objects|
  {
    assert c.domains.Keys !! c.definitions.Keys;
    assert |c.domains| == |c.domains.Keys| && |c.definitions| == |c.definitions.Keys|;
    assert |Seen(c)| == |c.domains.Keys| + |c.definitions.Keys|;
    SmallerSet(Seen(c), objects.Keys);
    assert |objects| == |objects.Keys|;
  }

  // A further object that does not fit means the State does not fit.
  lemma TooMany(objects: Objects, c: Collection, r: Ref, maxItems: nat, busy: Option<Ref>)
    requires Sound(objects, c, busy) && r in objects && r !in Seen(c) && |Seen(c)| >= maxItems
    ensures !Fits(objects, maxItems)
  {
    SeenWithin(objects, c, busy);
    SmallerSet(Seen(c) + {r}, objects.Keys);
    assert |objects| == |objects.Keys|;
  }

  lemma ClassifiedDomain(objects: Objects, c: Collection, item: Summary, next: Collection, busy: Option<Ref>)
    requires Sound(objects, c, busy) && item.ref in objects && objects[item.ref].DomainValue? && item == SummaryOf(item.ref, objects[item.ref])
    requires if item.ref in c.domains then next == c
             else next == c.(domains := c.domains[item.ref := item], queue := c.queue + [item.ref])
    ensures Sound(objects, next, busy) && Seen(next) == Seen(c) + {item.ref}
  {
  }

  lemma ClassifiedDefinition(objects: Objects, c: Collection, item: Summary, next: Collection, busy: Option<Ref>)
    requires Sound(objects, c, busy) && item.ref in objects && objects[item.ref].DefinitionValue? && item == SummaryOf(item.ref, objects[item.ref])
    requires if item.ref in c.definitions then next == c else next == c.(definitions := c.definitions[item.ref := item])
    ensures Sound(objects, next, busy) && Seen(next) == Seen(c) + {item.ref}
  {
  }

  ghost predicate Summaries(objects: Objects, items: seq<Summary>) {
    forall i {:trigger items[i]} :: 0 <= i < |items| ==> items[i].ref in objects && items[i] == SummaryOf(items[i].ref, objects[items[i].ref])
  }

  ghost predicate AllSeen(items: seq<Summary>, k: nat, seen: set<Ref>) {
    forall i {:trigger items[i]} :: 0 <= i < k && i < |items| ==> items[i].ref in seen
  }

  lemma SeenMore(items: seq<Summary>, k: nat, seen: set<Ref>, more: set<Ref>)
    requires k < |items| && AllSeen(items, k, seen) && more == seen + {items[k].ref}
    ensures AllSeen(items, k + 1, more)
  {
  }

  method ClassifyAll(objects: Objects, start: Collection, items: seq<Summary>, maxItems: nat, ghost busy: Option<Ref>) returns (r: Outcome<Collection>)
    requires Sound(objects, start, busy) && |Seen(start)| <= maxItems && WellNamed(objects) && Summaries(objects, items)
    ensures r.Stopped? ==> !Fits(objects, maxItems)
    ensures r.Done? ==> Sound(objects, r.value, busy) && r.value.members == start.members && |Seen(r.value)| <= maxItems
    ensures r.Done? ==> AllSeen(items, |items|, Seen(r.value)) && Seen(start) <= Seen(r.value)
  {
    var c := start;
    var k := 0;
    while k < |items|
      invariant 0 <= k <= |items| && Sound(objects, c, busy) && c.members == start.members && |Seen(c)| <= maxItems
      invariant AllSeen(items, k, Seen(c)) && Seen(start) <= Seen(c)
    {
      var next := Classify(objects, c, items[k], maxItems, busy);
      if next.Stopped? {
        return next;
      }
      SeenMore(items, k, Seen(c), Seen(next.value));
      c := next.value;
      k := k + 1;
    }
    return Done(c);
  }

  // Everything the pinned State holds.
  ghost predicate Complete(objects: Objects, c: Collection) {
    && c.domains.Keys == (set r | r in objects && objects[r].DomainValue?) && Registered(objects, c.domains, true)
    && c.definitions.Keys == (set r | r in objects && objects[r].DefinitionValue?) && Registered(objects, c.definitions, false)
    && c.members.Keys == c.domains.Keys
    && forall d {:trigger c.members[d]} :: d in c.members ==> IsListing(objects, Members(d), c.members[d])
  }

  // When the queue is empty everything has been found: every Domain and every Definition in no
  // Domain is in the overview, and every other Definition is a member of a Domain.
  lemma WorkDone(objects: Objects, c: Collection, overview: seq<Summary>)
    requires WellFormed(objects) && Sound(objects, c, None) && c.queue == [] && IsListing(objects, Overview, overview)
    requires forall r :: r in overview ==> r.ref in Seen(c)
    ensures Complete(objects, c)
  {
    forall r | r in objects ensures r in Seen(c) {
      if InScope(objects, Overview, r) {
        assert SummaryOf(r, objects[r]) in overview;
      } else {
        var d :| d in objects && HasMember(objects, d, r);
        assert InScope(objects, Overview, d);
        assert SummaryOf(d, objects[d]) in overview;
        assert d in c.members;
      }
    }
  }

  lemma MemberListed(objects: Objects, d: Ref, children: seq<Summary>, r: Ref)
    requires WellFormed(objects) && IsListing(objects, Members(d), children) && HasMember(objects, d, r)
    ensures r in objects && SummaryOf(r, objects[r]) in children
  {
    assert WellFormedObject(objects, objects[d]);
    assert InScope(objects, Members(d), r);
  }

  function Taken(c: Collection, children: seq<Summary>): Collection
    requires c.queue != []
  {
    c.(queue := c.queue[1..], members := c.members[c.queue[0] := children])
  }

  lemma TakenQueue(objects: Objects, c: Collection, children: seq<Summary>)
    requires Sound(objects, c, None) && c.queue != []
    ensures var t := Taken(c, children);
            && Distinct(t.queue) && (forall r :: r in t.queue ==> r in t.domains && r !in t.members)
            && forall r :: r in t.domains ==> r in t.queue || r in t.members
  {
    var head, tail := c.queue[0], c.queue[1..];
    assert c.queue == [head] + tail;
    assert head !in tail;
  }

  // The Domain at the head of the queue has been read.
  lemma HeadTaken(objects: Objects, c: Collection, children: seq<Summary>)
    requires Sound(objects, c, None) && c.queue != [] && IsListing(objects, Members(c.queue[0]), children)
    ensures Sound(objects, Taken(c, children), Some(c.queue[0])) && Seen(Taken(c, children)) == Seen(c)
  {
    TakenQueue(objects, c, children);
    assert c.queue[0] in c.queue;
  }

  lemma TakenCount(objects: Objects, c: Collection, children: seq<Summary>)
    requires Sound(objects, c, None) && c.queue != []
    ensures |Taken(c, children).members| == |c.members| + 1
  {
    assert c.queue[0] in c.queue;
    var members := Taken(c, children).members;
    assert members.Keys == c.members.Keys + {c.queue[0]} && |members| == |members.Keys| && |c.members| == |c.members.Keys|;
  }

  lemma HeadFinished(objects: Objects, c: Collection, d: Ref, children: seq<Summary>)
    requires WellFormed(objects) && Sound(objects, c, Some(d)) && d in c.members && c.members[d] == children
    requires AllSeen(children, |children|, Seen(c))
    ensures Sound(objects, c, None)
  {
    forall r | HasMember(objects, d, r) ensures r in Seen(c) {
      MemberListed(objects, d, children, r);
      var i :| 0 <= i < |children| && children[i] == SummaryOf(r, objects[r]);
    }
  }

  // The members listed by the reader are as many as the Domain includes.
  lemma ListedMembers(objects: Objects, d: Ref, listing: seq<Summary>)
    requires WellFormed(objects) && d in objects && objects[d].DomainValue? && IsListing(objects, Members(d), listing)
    ensures |listing| == |objects[d].domain.includes| && Summaries(objects, listing)
  {
    assert WellFormedObject(objects, objects[d]);
    var includes := objects[d].domain.includes;
    var refs := set m | m in includes;
    var listed := set s | s in listing;
    DistinctSize(includes);
    DistinctSize(listing);
    forall m | m in includes ensures m.ref in objects && SummaryOf(m.ref, objects[m.ref]) in listed {
      assert HasMember(objects, d, m.ref);
      MemberListed(objects, d, listing, m.ref);
    }
    forall s | s in listed ensures To(s.ref) in refs {
      var i :| 0 <= i < |listing| && listing[i] == s;
    }
    SameCount(objects, refs, listed);
  }

  lemma {:induction false} DistinctSize<T>(s: seq<T>)
    requires Distinct(s)
    ensures |set x | x in s| == |s|
  {
    if s != [] {
      DistinctSize(s[1..]);
      var rest := set x | x in s[1..];
      assert s == [s[0]] + s[1..] && s[0] !in s[1..];
      assert (set x | x in s) == rest + {s[0]};
    }
  }

  lemma {:induction false} SameCount(objects: Objects, refs: set<Reference>, listed: set<Summary>)
    requires forall m :: m in refs ==> m.To? && m.ref in objects && SummaryOf(m.ref, objects[m.ref]) in listed
    requires forall s :: s in listed ==> To(s.ref) in refs && s.ref in objects && s == SummaryOf(s.ref, objects[s.ref])
    ensures |refs| == |listed|
  {
    if refs == {} {
      assert listed == {};
    } else {
      var m :| m in refs;
      SameCount(objects, refs - {m}, listed - {SummaryOf(m.ref, objects[m.ref])});
    }
  }

  lemma ProcessedFewer(objects: Objects, c: Collection, busy: Option<Ref>)
    requires Sound(objects, c, busy)
    ensures |c.members| <= |objects|
  {
    SmallerSet(c.members.Keys, objects.Keys);
    assert |c.members| == |c.members.Keys| && |objects| == |objects.Keys|;
  }

  // For any membership graph, cycles included: exactly everything the State holds, or nothing where a budget is exceeded.
  method Collect(objects: Objects, state: string, overview: seq<Summary>, maxItems: nat) returns (r: Outcome<Collection>)
    requires WellFormed(objects) && IsListing(objects, Overview, overview)
    ensures r.Done? <==> Fits(objects, maxItems)
    ensures r.Done? ==> Complete(objects, r.value)
  {
    var start := ClassifyAll(objects, Collection(map[], map[], map[], []), overview, maxItems, None);
    if start.Stopped? {
      return start;
    }
    var c := start.value;
    AllRegistered(overview, Seen(c));
    ProcessedFewer(objects, c, None);
    while |c.queue| != 0
      invariant Sound(objects, c, None) && |Seen(c)| <= maxItems && |c.members| <= |objects|
      invariant forall s :: s in overview ==> s.ref in Seen(c)
      invariant forall d {:trigger c.members[d]} :: d in c.members ==> |c.members[d]| <= maxItems
      decreases |objects| - |c.members|
    {
      var step := CollectNext(objects, state, c, maxItems);
      if step.Stopped? {
        return step;
      }
      ProcessedFewer(objects, step.value, None);
      c := step.value;
    }
    WorkDone(objects, c, overview);
    CollectedFits(objects, c, maxItems);
    return Done(c);
  }

  lemma AllRegistered(items: seq<Summary>, seen: set<Ref>)
    requires AllSeen(items, |items|, seen)
    ensures forall s :: s in items ==> s.ref in seen
  {
  }

  lemma CollectedFits(objects: Objects, c: Collection, maxItems: nat)
    requires WellFormed(objects) && Sound(objects, c, None) && Complete(objects, c) && |Seen(c)| <= maxItems
    requires forall d {:trigger c.members[d]} :: d in c.members ==> |c.members[d]| <= maxItems
    ensures Fits(objects, maxItems)
  {
    assert Seen(c) == objects.Keys;
    assert |objects| == |objects.Keys|;
    forall d | d in objects && objects[d].DomainValue? ensures |objects[d].domain.includes| <= maxItems {
      assert d in c.members;
      ListedMembers(objects, d, c.members[d]);
    }
  }

  method ReadMembers(objects: Objects, state: string, d: Ref, maxItems: nat) returns (r: Outcome<seq<Summary>>)
    requires WellFormed(objects) && d in objects && objects[d].DomainValue?
    ensures r.Done? ==> IsListing(objects, Members(d), r.value) && Summaries(objects, r.value) && |r.value| <= maxItems
    ensures r.Stopped? ==> !Fits(objects, maxItems)
  {
    ghost var listing := ListingExists(objects, Members(d));
    ListedMembers(objects, d, listing);
    r := Paginate(objects, state, Members(d), maxItems, listing);
    if r.Stopped? {
      assert |objects[d].domain.includes| > maxItems;
    }
  }

  // One round of the work list.
  method CollectNext(objects: Objects, state: string, c: Collection, maxItems: nat) returns (r: Outcome<Collection>)
    requires WellFormed(objects) && Sound(objects, c, None) && c.queue != [] && |Seen(c)| <= maxItems
    requires forall d {:trigger c.members[d]} :: d in c.members ==> |c.members[d]| <= maxItems
    ensures r.Stopped? ==> !Fits(objects, maxItems)
    ensures r.Done? ==> Sound(objects, r.value, None) && |Seen(r.value)| <= maxItems && Seen(c) <= Seen(r.value)
    ensures r.Done? ==> |r.value.members| == |c.members| + 1
    ensures r.Done? ==> forall d {:trigger r.value.members[d]} :: d in r.value.members ==> |r.value.members[d]| <= maxItems
  {
    var ref := c.queue[0];
    assert ref in c.queue;
    var children := ReadMembers(objects, state, ref, maxItems);
    if children.Stopped? {
      return Stopped(children.fault);
    }
    HeadTaken(objects, c, children.value);
    TakenCount(objects, c, children.value);
    var taken := c.(queue := c.queue[1..], members := c.members[ref := children.value]);
    r := ClassifyAll(objects, taken, children.value, maxItems, Some(ref));
    if r.Done? {
      HeadFinished(objects, r.value, ref, children.value);
    }
  }
}
