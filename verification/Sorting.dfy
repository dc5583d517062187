// sort.Slice by a string key, and the order-independent meaning of its result.

module Sorting {
  import opened Text

  ghost predicate Ordered<T>(s: seq<T>, key: T -> string) {
    forall i, j :: 0 <= i < j < |s| ==> LexLe(key(s[i]), key(s[j]))
  }

  predicate Distinct<T(==)>(s: seq<T>) {
    forall i, j :: 0 <= i < j < |s| ==> s[i] != s[j]
  }

  // Elements with one key are one element.
  ghost predicate KeyDetermines<T>(s: seq<T>, key: T -> string) {
    forall i, j :: 0 <= i < |s| && 0 <= j < |s| && key(s[i]) == key(s[j]) ==> s[i] == s[j]
  }

  function Insert<T(==)>(x: T, s: seq<T>, key: T -> string): (r: seq<T>)
    ensures multiset(r) == multiset(s) + multiset{x}
  {
    if s == [] then [x]
    else if LexLe(key(x), key(s[0])) then [x] + s
    else
      assert s == [s[0]] + s[1..];
      [s[0]] + Insert(x, s[1..], key)
  }

  lemma {:induction false} InsertOrdered<T>(x: T, s: seq<T>, key: T -> string)
    requires Ordered(s, key)
    ensures Ordered(Insert(x, s, key), key)
  {
    if s != [] {
      if LexLe(key(x), key(s[0])) {
        forall j | 0 <= j < |s| ensures LexLe(key(x), key(s[j])) {
          if j > 0 {
            LexTransitive(key(x), key(s[0]), key(s[j]));
          }
        }
      } else {
        LexTotal(key(x), key(s[0]));
        InsertOrdered(x, s[1..], key);
        var rest := Insert(x, s[1..], key);
        forall j | 0 <= j < |rest| ensures LexLe(key(s[0]), key(rest[j])) {
          assert rest[j] in multiset(rest);
          assert rest[j] == x || rest[j] in s[1..];
        }
      }
    }
  }

  // One ordered permutation of s.
  function Sorted<T(==)>(s: seq<T>, key: T -> string): (r: seq<T>)
    ensures multiset(r) == multiset(s)
  {
    if s == [] then []
    else
      assert s == [s[0]] + s[1..];
      Insert(s[0], Sorted(s[1..], key), key)
  }

  lemma {:induction false} SortedOrdered<T>(s: seq<T>, key: T -> string)
    ensures Ordered(Sorted(s, key), key)
  {
    if s != [] {
      SortedOrdered(s[1..], key);
      InsertOrdered(s[0], Sorted(s[1..], key), key);
    }
  }

  lemma LeastKey<T>(a: seq<T>, x: T, key: T -> string)
    requires Ordered(a, key) && x in a
    ensures LexLe(key(a[0]), key(x))
  {
    LexTotal(key(x), key(x));
  }

  lemma HeadsAgree<T>(a: seq<T>, b: seq<T>, key: T -> string)
    requires KeyDetermines(a, key)
    requires a != [] && Ordered(a, key) && Ordered(b, key) && multiset(a) == multiset(b)
    ensures b != [] && a[0] == b[0]
  {
    assert a[0] in multiset(b) && a[0] in b;
    assert b[0] in multiset(a) && b[0] in a;
    LeastKey(a, b[0], key);
    LeastKey(b, a[0], key);
    LexAntisymmetric(key(a[0]), key(b[0]));
    var k :| 0 <= k < |a| && a[k] == b[0];
    assert key(a[0]) == key(a[k]);
  }

  // sort.Slice is unstable and Go walks maps in any order; where the key determines the element the
  // ordered list is unique all the same.
  lemma {:induction false} OrderedUnique<T>(a: seq<T>, b: seq<T>, key: T -> string)
    requires KeyDetermines(a, key)
    requires Ordered(a, key) && Ordered(b, key) && multiset(a) == multiset(b)
    ensures a == b
  {
    if a == [] {
      assert |b| == |multiset(b)| == 0;
    } else {
      HeadsAgree(a, b, key);
      assert a == [a[0]] + a[1..] && b == [b[0]] + b[1..];
      assert multiset(a[1..]) == multiset(a) - multiset{a[0]} == multiset(b[1..]);
      OrderedUnique(a[1..], b[1..], key);
    }
  }

  lemma {:induction false} CountsOnce<T>(s: seq<T>, x: T)
    requires Distinct(s)
    ensures multiset(s)[x] == if x in s then 1 else 0
  {
    if s != [] {
      CountsOnce(s[1..], x);
      assert s == [s[0]] + s[1..];
      assert s[0] !in s[1..];
    }
  }

  lemma {:induction false} DistinctByCount<T>(s: seq<T>)
    requires forall x :: multiset(s)[x] <= 1
    ensures Distinct(s)
  {
    if s != [] {
      assert s == [s[0]] + s[1..];
      forall x ensures multiset(s[1..])[x] <= 1 {
        assert multiset(s)[x] <= 1;
      }
      DistinctByCount(s[1..]);
      assert multiset(s)[s[0]] <= 1;
      assert s[0] !in multiset(s[1..]);
    }
  }

  // sort.Slice promises no more than this.
  method SortSlice<T(==)>(s: seq<T>, key: T -> string) returns (r: seq<T>)
    ensures multiset(r) == multiset(s) && Ordered(r, key)
  {
    SortedOrdered(s, key);
    r := Sorted(s, key);
  }

  // Sorting keeps a list free of repetitions, and its members.
  lemma PermutedDistinct<T(!new)>(listed: seq<T>, sorted: seq<T>)
    requires Distinct(listed) && multiset(sorted) == multiset(listed)
    ensures Distinct(sorted) && forall x :: x in sorted <==> x in listed
  {
    forall x ensures multiset(sorted)[x] <= 1 && (x in sorted <==> x in listed) {
      CountsOnce(listed, x);
      assert x in sorted <==> x in multiset(sorted);
      assert x in listed <==> x in multiset(listed);
    }
    DistinctByCount(sorted);
  }

  // The members of a set or the keys of a map, collected in any order and then sorted.
  method SortedList<T(==, !new)>(members: set<T>, key: T -> string) returns (sorted: seq<T>)
    ensures Distinct(sorted) && Ordered(sorted, key) && forall x :: x in sorted <==> x in members
  {
    var listed: seq<T> := [];
    var todo := members;
    while todo != {}
      invariant todo <= members
      invariant Distinct(listed) && forall x :: x in listed <==> x in members && x !in todo
      decreases |todo|
    {
      var x :| x in todo;
      todo := todo - {x};
      listed := listed + [x];
    }
    sorted := SortSlice(listed, key);
    PermutedDistinct(listed, sorted);
  }

  // sort.Strings: a string is its own key.
  function Itself(s: string): string {
    s
  }
}
