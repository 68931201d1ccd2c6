/**
 * The order of what is written (section 3.2.3 of RFC 8785): members by the UTF-16 code units of
 * their names, prompts by those of their ids, tools by their own.
 */
module CanonicalOrder {
  import opened Common
  import opened JsonText
  import opened KeySort
  import opened CanonicalJson
  import opened Fingerprint

  /** Up to `i` the two agree; there `a` ends, or has the smaller unit. */
  predicate DiffersAt(a: Text, b: Text, i: nat) {
    && i <= |a| && i < |b| && (forall k :: 0 <= k < i ==> a[k] == b[k])
    && (i == |a| || a[i] < b[i])
  }

  /** A proper prefix comes first, and otherwise the smaller unit where the two first differ. */
  ghost predicate Precedes(a: Text, b: Text) { exists i :: DiffersAt(a, b, i) }

  lemma DiffersLater(a: Text, b: Text, i: nat)
    requires a != [] && b != [] && a[0] == b[0] && DiffersAt(a[1..], b[1..], i)
    ensures DiffersAt(a, b, i + 1)
  {
    forall k | 0 <= k < i + 1 ensures a[k] == b[k] {
      if k > 0 { assert a[1..][k - 1] == b[1..][k - 1]; }
    }
  }

  lemma DiffersEarlier(a: Text, b: Text, i: nat)
    requires i > 0 && DiffersAt(a, b, i)
    ensures DiffersAt(a[1..], b[1..], i - 1)
  {
  }

  /** The comparison the sort goes by is this order. */
  lemma {:induction false} KeyLessIsPrecedes(a: Text, b: Text)
    ensures KeyLess(a, b) <==> Precedes(a, b)
  {
    if a == [] && b != [] {
      assert DiffersAt(a, b, 0);
    } else if a != [] && b != [] {
      KeyLessIsPrecedes(a[1..], b[1..]);
      if a[0] < b[0] { assert DiffersAt(a, b, 0); }
      if a[0] == b[0] && Precedes(a[1..], b[1..]) {
        var i: nat :| DiffersAt(a[1..], b[1..], i);
        DiffersLater(a, b, i);
      }
      if Precedes(a, b) {
        var i: nat :| DiffersAt(a, b, i);
        if i > 0 { DiffersEarlier(a, b, i); }
      }
    }
  }

  lemma SortedAscends<T>(key: T -> Text, items: seq<T>, i: nat, j: nat)
    requires i < j < |SortBy(key, items)|
    ensures var s := SortBy(key, items); Precedes(key(s[i]), key(s[j])) || key(s[i]) == key(s[j])
  {
    var s := SortBy(key, items);
    SortSorts(key, items);
    KeyOrder(key(s[i]), key(s[j]), []);
    KeyLessIsPrecedes(key(s[i]), key(s[j]));
  }

  lemma {:induction false} DefinedIsDistinct(entries: seq<Entry>)
    requires forall i, j :: 0 <= i < j < |entries| ==> entries[i].key != entries[j].key
    ensures forall i, j :: 0 <= i < j < |Defined(entries)| ==> Defined(entries)[i].key != Defined(entries)[j].key
  {
    if entries != [] {
      DefinedIsDistinct(entries[1..]);
      DefinedHas(entries[1..]);
      forall e | e in Defined(entries[1..]) ensures e.key != entries[0].key {
        var k :| 0 <= k < |entries[1..]| && entries[1..][k] == e;
        assert entries[k + 1] == e;
      }
    }
  }

  /** A sort keeps how often each element occurs, so distinct keys stay distinct. */
  lemma SortedIsDistinct(entries: seq<Entry>, i: nat, j: nat)
    requires forall i, j :: 0 <= i < j < |entries| ==> entries[i].key != entries[j].key
    requires i < j < |SortBy(KeyOf, entries)|
    ensures SortBy(KeyOf, entries)[i].key != SortBy(KeyOf, entries)[j].key
  {
    var s := SortBy(KeyOf, entries);
    if s[i].key == s[j].key {
      SortKeeps(KeyOf, entries);
      InSorted(KeyOf, entries, s[i]);
      InSorted(KeyOf, entries, s[j]);
      assert s[i] == s[j];
      TwiceIn(s, i, j);
      TwiceOut(entries, s[i]);
    }
  }

  lemma TwiceIn<T>(s: seq<T>, i: nat, j: nat)
    requires i < j < |s| && s[i] == s[j]
    ensures multiset(s)[s[i]] >= 2
  {
    assert s == s[..j] + s[j..];
    assert s[i] == s[..j][i] && s[i] in s[..j] && s[j] == s[j..][0] && s[j] in s[j..];
    assert multiset(s)[s[i]] == multiset(s[..j])[s[i]] + multiset(s[j..])[s[i]];
  }

  lemma TwiceOut<T>(s: seq<T>, x: T)
    requires multiset(s)[x] >= 2
    ensures exists i, j :: 0 <= i < j < |s| && s[i] == x && s[j] == x
  {
    assert x in multiset(s);
    var i :| 0 <= i < |s| && s[i] == x;
    assert s == s[..i] + [x] + s[i + 1..];
    assert multiset(s) == multiset(s[..i]) + multiset{x} + multiset(s[i + 1..]);
    if x in s[..i] {
      var k :| 0 <= k < i && s[..i][k] == x;
      assert s[k] == x;
    } else {
      assert multiset(s[..i])[x] == 0;
      assert x in multiset(s[i + 1..]);
      var k :| 0 <= k < |s[i + 1..]| && s[i + 1..][k] == x;
      assert s[i + 1 + k] == x;
    }
  }

  /** Of two members written for an object, the name of the earlier comes strictly first. */
  lemma MembersAscend(entries: seq<Entry>, i: nat, j: nat)
    requires WellFormed(Obj(entries)) && i < j < |Written(entries)|
    ensures Precedes(Written(entries)[i].key, Written(entries)[j].key)
  {
    DefinedIsDistinct(entries);
    SortedIsDistinct(Defined(entries), i, j);
    SortedAscends(KeyOf, Defined(entries), i, j);
  }

  /** In what is hashed, prompts ascend by id and tools by name; equal ones are side by side. */
  lemma ProjectionAscends(p: Projection)
    ensures var n := Normalize(p);
      && (forall i, j :: 0 <= i < j < |n.prompts| ==> Precedes(n.prompts[i].id, n.prompts[j].id) || n.prompts[i].id == n.prompts[j].id)
      && (forall i, j :: 0 <= i < j < |n.allow| ==> Precedes(n.allow[i], n.allow[j]) || n.allow[i] == n.allow[j])
      && (forall i, j :: 0 <= i < j < |n.deny| ==> Precedes(n.deny[i], n.deny[j]) || n.deny[i] == n.deny[j])
  {
    var n := Normalize(p);
    forall i, j | 0 <= i < j < |n.prompts| ensures Precedes(n.prompts[i].id, n.prompts[j].id) || n.prompts[i].id == n.prompts[j].id {
      SortedAscends(IdOf, p.prompts, i, j);
    }
    forall i, j | 0 <= i < j < |n.allow| ensures Precedes(n.allow[i], n.allow[j]) || n.allow[i] == n.allow[j] {
      SortedAscends(Itself, p.allow, i, j);
    }
    forall i, j | 0 <= i < j < |n.deny| ensures Precedes(n.deny[i], n.deny[j]) || n.deny[i] == n.deny[j] {
      SortedAscends(Itself, p.deny, i, j);
    }
  }
}
