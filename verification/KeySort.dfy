/** Stable sorting by a text key, in the order of UTF-16 code units. */
module KeySort {
  import opened JsonText

  predicate KeyLess(a: Text, b: Text) {
    if b == [] then false
    else if a == [] then true
    else a[0] < b[0] || (a[0] == b[0] && KeyLess(a[1..], b[1..]))
  }

  /** `x` goes before the first element whose key is not less than its own. */
  function Insert<T>(key: T -> Text, x: T, sorted: seq<T>): seq<T> {
    if sorted == [] || !KeyLess(key(sorted[0]), key(x)) then [x] + sorted
    else [sorted[0]] + Insert(key, x, sorted[1..])
  }

  function SortBy<T>(key: T -> Text, items: seq<T>): seq<T> {
    if items == [] then [] else Insert(key, items[0], SortBy(key, items[1..]))
  }

  ghost predicate Sorted<T>(key: T -> Text, items: seq<T>) {
    forall i, j :: 0 <= i < j < |items| ==> !KeyLess(key(items[j]), key(items[i]))
  }

  /** Unit order is a strict total order. */
  lemma {:induction false} KeyOrder(a: Text, b: Text, c: Text)
    ensures !KeyLess(a, a)
    ensures KeyLess(a, b) ==> !KeyLess(b, a)
    ensures KeyLess(a, b) || a == b || KeyLess(b, a)
    ensures KeyLess(a, b) && KeyLess(b, c) ==> KeyLess(a, c)
  {
    if a != [] && b != [] {
      assert a == [a[0]] + a[1..] && b == [b[0]] + b[1..];
      KeyOrder(a[1..], b[1..], if c == [] then [] else c[1..]);
    } else if a != [] {
      KeyOrder(a[1..], [], []);
    }
  }

  lemma {:induction false} InsertKeeps<T>(key: T -> Text, x: T, sorted: seq<T>)
    ensures multiset(Insert(key, x, sorted)) == multiset(sorted) + multiset{x}
  {
    if sorted != [] && KeyLess(key(sorted[0]), key(x)) {
      InsertKeeps(key, x, sorted[1..]);
      assert sorted == [sorted[0]] + sorted[1..];
    }
  }

  lemma {:induction false} SortKeeps<T>(key: T -> Text, items: seq<T>)
    ensures multiset(SortBy(key, items)) == multiset(items)
  {
    if items != [] {
      SortKeeps(key, items[1..]);
      InsertKeeps(key, items[0], SortBy(key, items[1..]));
      assert items == [items[0]] + items[1..];
    }
  }

  lemma InSorted<T>(key: T -> Text, items: seq<T>, x: T)
    ensures x in SortBy(key, items) <==> x in items
  {
    SortKeeps(key, items);
    assert x in SortBy(key, items) <==> x in multiset(SortBy(key, items));
    assert x in items <==> x in multiset(items);
  }

  lemma SortHas<T>(key: T -> Text, items: seq<T>)
    ensures forall x :: x in SortBy(key, items) <==> x in items
  {
    forall x ensures x in SortBy(key, items) <==> x in items {
      InSorted(key, items, x);
    }
  }

  lemma {:induction false} InsertSorts<T>(key: T -> Text, x: T, sorted: seq<T>)
    requires Sorted(key, sorted)
    ensures Sorted(key, Insert(key, x, sorted))
  {
    if sorted == [] {
    } else if !KeyLess(key(sorted[0]), key(x)) {
      forall j | 0 <= j < |sorted| ensures !KeyLess(key(sorted[j]), key(x)) {
        NotLess(key(sorted[j]), key(sorted[0]), key(x));
        assert j > 0 ==> !KeyLess(key(sorted[j]), key(sorted[0]));
      }
    } else {
      InsertSorts(key, x, sorted[1..]);
      InsertKeeps(key, x, sorted[1..]);
      var rest := Insert(key, x, sorted[1..]);
      forall j | 0 <= j < |rest| ensures !KeyLess(key(rest[j]), key(sorted[0])) {
        KeyOrder(key(sorted[0]), key(x), []);
        assert rest[j] in multiset(rest);
        if rest[j] != x {
          assert rest[j] in multiset(sorted[1..]);
          var k :| 0 <= k < |sorted[1..]| && sorted[1..][k] == rest[j];
          assert sorted[k + 1] == rest[j];
        }
      }
    }
  }

  /** "Not less" is transitive. */
  lemma NotLess(a: Text, b: Text, c: Text)
    ensures !KeyLess(b, c) && (a == b || !KeyLess(a, b)) ==> !KeyLess(a, c)
  {
    KeyOrder(a, b, c);
    KeyOrder(b, a, c);
    KeyOrder(a, c, b);
    KeyOrder(c, b, a);
    KeyOrder(b, c, a);
  }

  lemma {:induction false} SortSorts<T>(key: T -> Text, items: seq<T>)
    ensures Sorted(key, SortBy(key, items))
  {
    if items != [] {
      SortSorts(key, items[1..]);
      InsertSorts(key, items[0], SortBy(key, items[1..]));
    }
  }

  /** Elements with the same key are the same element. */
  ghost predicate KeyDetermines<T>(key: T -> Text, items: seq<T>) {
    forall x, y :: x in items && y in items && key(x) == key(y) ==> x == y
  }

  lemma FirstIsLeast<T>(key: T -> Text, a: seq<T>, b: seq<T>)
    requires Sorted(key, a) && multiset(a) == multiset(b) && a != [] && b != []
    ensures !KeyLess(key(b[0]), key(a[0]))
  {
    assert b[0] in multiset(b);
    assert b[0] in multiset(a);
    var i :| 0 <= i < |a| && a[i] == b[0];
    KeyOrder(key(a[0]), key(a[0]), []);
  }

  lemma SameFirst<T>(key: T -> Text, a: seq<T>, b: seq<T>)
    requires Sorted(key, a) && Sorted(key, b) && multiset(a) == multiset(b) && a != [] && b != [] &&
      KeyDetermines(key, a)
    ensures a[0] == b[0]
  {
    FirstIsLeast(key, a, b);
    FirstIsLeast(key, b, a);
    KeyOrder(key(a[0]), key(b[0]), []);
    assert b[0] in multiset(b);
    assert b[0] in multiset(a);
  }

  lemma RestMultiset<T>(a: seq<T>, b: seq<T>)
    requires multiset(a) == multiset(b) && a != [] && b != [] && a[0] == b[0]
    ensures multiset(a[1..]) == multiset(b[1..])
  {
    assert a == [a[0]] + a[1..] && b == [b[0]] + b[1..];
    assert multiset(a[1..]) == multiset(a) - multiset{a[0]};
    assert multiset(b[1..]) == multiset(b) - multiset{b[0]};
  }

  lemma RestDetermines<T>(key: T -> Text, a: seq<T>)
    requires KeyDetermines(key, a) && a != []
    ensures KeyDetermines(key, a[1..])
  {
    forall x, y | x in a[1..] && y in a[1..] && key(x) == key(y) ensures x == y {
      assert x in a && y in a;
    }
  }

  lemma SameSize<T>(a: seq<T>, b: seq<T>)
    requires multiset(a) == multiset(b)
    ensures |a| == |b|
  {
    assert |multiset(a)| == |a| && |multiset(b)| == |b|;
  }

  /** A multiset whose keys determine its elements has one sorted sequence. */
  lemma {:induction false} SortedIsUnique<T>(key: T -> Text, a: seq<T>, b: seq<T>)
    requires Sorted(key, a) && Sorted(key, b) && multiset(a) == multiset(b) && KeyDetermines(key, a)
    ensures a == b
  {
    SameSize(a, b);
    if a != [] {
      SameFirst(key, a, b);
      RestMultiset(a, b);
      RestDetermines(key, a);
      SortedIsUnique(key, a[1..], b[1..]);
      assert a == [a[0]] + a[1..] && b == [b[0]] + b[1..];
    }
  }

  lemma SortDetermines<T>(key: T -> Text, a: seq<T>)
    requires KeyDetermines(key, a)
    ensures KeyDetermines(key, SortBy(key, a))
  {
    var sorted := SortBy(key, a);
    forall x, y | x in sorted && y in sorted && key(x) == key(y) ensures x == y {
      InSorted(key, a, x);
      InSorted(key, a, y);
    }
  }

  /** When keys determine elements, sorted sequences are equal exactly when the multisets are. */
  lemma SortIff<T>(key: T -> Text, a: seq<T>, b: seq<T>)
    requires KeyDetermines(key, a)
    ensures SortBy(key, a) == SortBy(key, b) <==> multiset(a) == multiset(b)
  {
    SortKeeps(key, a);
    SortKeeps(key, b);
    if multiset(a) == multiset(b) {
      SortSorts(key, a);
      SortSorts(key, b);
      SortDetermines(key, a);
      SortedIsUnique(key, SortBy(key, a), SortBy(key, b));
    }
  }

  // ---- sorted sequences whose keys do not determine their elements --------------------------------

  /** The elements with key `k`, in the order they are listed. */
  function WithKey<T>(key: T -> Text, items: seq<T>, k: Text): seq<T> {
    if items == [] then []
    else (if key(items[0]) == k then [items[0]] else []) + WithKey(key, items[1..], k)
  }

  /** Key by key, the same elements in the same order. */
  ghost predicate ListedAlike<T(!new)>(key: T -> Text, a: seq<T>, b: seq<T>) {
    forall k :: WithKey(key, a, k) == WithKey(key, b, k)
  }

  /** Whatever the order its elements are listed in, the sequence sorts the same. */
  ghost predicate OrderIsImmaterial<T(!new)>(key: T -> Text, items: seq<T>) {
    forall other :: multiset(other) == multiset(items) ==> SortBy(key, other) == SortBy(key, items)
  }

  lemma {:induction false} InsertWithKey<T>(key: T -> Text, x: T, sorted: seq<T>, k: Text)
    ensures WithKey(key, Insert(key, x, sorted), k) == WithKey(key, [x], k) + WithKey(key, sorted, k)
  {
    if sorted == [] || !KeyLess(key(sorted[0]), key(x)) {
      assert ([x] + sorted)[1..] == sorted && [x][1..] == [];
    } else {
      var rest := Insert(key, x, sorted[1..]);
      InsertWithKey(key, x, sorted[1..], k);
      KeyOrder(key(x), key(x), []);
      assert ([sorted[0]] + rest)[1..] == rest && [x][1..] == [];
    }
  }

  lemma RestWithKey<T>(key: T -> Text, a: seq<T>, k: Text)
    requires a != []
    ensures WithKey(key, a, k) == WithKey(key, [a[0]], k) + WithKey(key, a[1..], k)
  {
    assert [a[0]][1..] == [];
  }

  /** Sorting is stable: it leaves elements with the same key in the order they were listed. */
  lemma {:induction false} SortIsStable<T>(key: T -> Text, items: seq<T>, k: Text)
    ensures WithKey(key, SortBy(key, items), k) == WithKey(key, items, k)
  {
    if items != [] {
      SortIsStable(key, items[1..], k);
      InsertWithKey(key, items[0], SortBy(key, items[1..]), k);
      RestWithKey(key, items, k);
    }
  }

  lemma {:induction false} KeyOccurs<T>(key: T -> Text, items: seq<T>, k: Text)
    ensures WithKey(key, items, k) != [] <==> exists i :: 0 <= i < |items| && key(items[i]) == k
  {
    if items != [] && key(items[0]) != k {
      KeyOccurs(key, items[1..], k);
      if WithKey(key, items, k) != [] {
        var i :| 0 <= i < |items[1..]| && key(items[1..][i]) == k;
        assert key(items[i + 1]) == k;
      }
      if i :| 0 <= i < |items| && key(items[i]) == k {
        assert items[i] == items[1..][i - 1];
      }
    }
  }

  /** The first of a sorted sequence has the least key there is. */
  lemma FirstKeyIsLeast<T>(key: T -> Text, a: seq<T>, k: Text)
    requires Sorted(key, a) && a != [] && WithKey(key, a, k) != []
    ensures !KeyLess(k, key(a[0]))
  {
    KeyOccurs(key, a, k);
    KeyOrder(k, k, []);
  }

  lemma SameFirstKey<T(!new)>(key: T -> Text, a: seq<T>, b: seq<T>)
    requires Sorted(key, a) && Sorted(key, b) && a != [] && b != [] && ListedAlike(key, a, b)
    ensures a[0] == b[0]
  {
    var j, k := key(a[0]), key(b[0]);
    assert WithKey(key, a, j) == WithKey(key, b, j) && WithKey(key, a, k) == WithKey(key, b, k);
    assert WithKey(key, a, j)[0] == a[0] && WithKey(key, b, k)[0] == b[0];
    FirstKeyIsLeast(key, b, j);
    FirstKeyIsLeast(key, a, k);
    KeyOrder(j, k, []);
  }

  lemma RestListedAlike<T(!new)>(key: T -> Text, a: seq<T>, b: seq<T>)
    requires a != [] && b != [] && a[0] == b[0] && ListedAlike(key, a, b)
    ensures ListedAlike(key, a[1..], b[1..])
  {
    forall k ensures WithKey(key, a[1..], k) == WithKey(key, b[1..], k) {
      var h, x, y := WithKey(key, [a[0]], k), WithKey(key, a[1..], k), WithKey(key, b[1..], k);
      RestWithKey(key, a, k);
      RestWithKey(key, b, k);
      assert h + x == h + y;
      assert x == (h + x)[|h|..] && y == (h + y)[|h|..];
    }
  }

  lemma EmptyStandsAlone<T(!new)>(key: T -> Text, a: seq<T>)
    requires a != []
    ensures !ListedAlike(key, a, []) && !ListedAlike(key, [], a)
  {
    var k := key(a[0]);
    assert WithKey(key, a, k)[0] == a[0] && WithKey(key, [], k) == [];
  }

  lemma {:induction false} KeysDetermineOrder<T(!new)>(key: T -> Text, a: seq<T>, b: seq<T>)
    requires Sorted(key, a) && Sorted(key, b) && ListedAlike(key, a, b)
    ensures a == b
  {
    if a == [] {
      if b != [] { EmptyStandsAlone(key, b); }
    } else if b == [] {
      EmptyStandsAlone(key, a);
    } else {
      SameFirstKey(key, a, b);
      RestListedAlike(key, a, b);
      KeysDetermineOrder(key, a[1..], b[1..]);
      assert a == [a[0]] + a[1..] && b == [b[0]] + b[1..];
    }
  }

  lemma SortedListedAlike<T(!new)>(key: T -> Text, a: seq<T>, b: seq<T>)
    ensures ListedAlike(key, SortBy(key, a), SortBy(key, b)) <==> ListedAlike(key, a, b)
  {
    forall k
      ensures WithKey(key, SortBy(key, a), k) == WithKey(key, a, k) && WithKey(key, SortBy(key, b), k) == WithKey(key, b, k)
    {
      SortIsStable(key, a, k);
      SortIsStable(key, b, k);
    }
  }

  /** Two sequences sort alike exactly when, key by key, they list the same elements in the same order. */
  lemma StableSortIff<T(!new)>(key: T -> Text, a: seq<T>, b: seq<T>)
    ensures SortBy(key, a) == SortBy(key, b) <==> ListedAlike(key, a, b)
  {
    SortedListedAlike(key, a, b);
    if ListedAlike(key, a, b) {
      SortSorts(key, a);
      SortSorts(key, b);
      KeysDetermineOrder(key, SortBy(key, a), SortBy(key, b));
    }
  }

  /** Two elements with one key, listed the other way round, sort differently whatever comes after them. */
  lemma SwappedSortDifferently<T(!new)>(key: T -> Text, x: T, y: T, rest: seq<T>)
    requires x != y && key(x) == key(y)
    ensures SortBy(key, [x, y] + rest) != SortBy(key, [y, x] + rest)
  {
    var a, b, k := [x, y] + rest, [y, x] + rest, key(x);
    assert WithKey(key, a, k)[0] == x && WithKey(key, b, k)[0] == y;
    StableSortIff(key, a, b);
  }

  /** Two elements of a sequence can be brought to its front. */
  lemma BroughtToFront<T>(items: seq<T>, i: nat, j: nat) returns (rest: seq<T>)
    requires i < j < |items|
    ensures multiset([items[i], items[j]] + rest) == multiset(items)
    ensures multiset([items[j], items[i]] + rest) == multiset(items)
  {
    rest := items[..i] + items[i + 1..j] + items[j + 1..];
    assert items == items[..i] + [items[i]] + items[i + 1..j] + [items[j]] + items[j + 1..];
    assert multiset(items) == multiset(items[..i]) + multiset{items[i]} + multiset(items[i + 1..j])
      + multiset{items[j]} + multiset(items[j + 1..]);
  }

  lemma SharedKeyMatters<T(!new)>(key: T -> Text, items: seq<T>, i: nat, j: nat)
    requires i < j < |items| && key(items[i]) == key(items[j]) && items[i] != items[j]
    ensures !OrderIsImmaterial(key, items)
  {
    var rest := BroughtToFront(items, i, j);
    SwappedSortDifferently(key, items[i], items[j], rest);
  }

  /** All rearrangements of a sequence sort alike exactly when its keys determine its elements. */
  lemma OrderIsImmaterialIff<T(!new)>(key: T -> Text, items: seq<T>)
    ensures OrderIsImmaterial(key, items) <==> KeyDetermines(key, items)
  {
    if KeyDetermines(key, items) {
      forall other | multiset(other) == multiset(items) ensures SortBy(key, other) == SortBy(key, items) {
        SortIff(key, items, other);
      }
    } else {
      var x, y :| x in items && y in items && key(x) == key(y) && x != y;
      var i :| 0 <= i < |items| && items[i] == x;
      var j :| 0 <= j < |items| && items[j] == y;
      if i < j {
        SharedKeyMatters(key, items, i, j);
      } else {
        SharedKeyMatters(key, items, j, i);
      }
    }
  }
}
