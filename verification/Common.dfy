/** Small value types and sequence facts shared by the other modules. */
module Common {

  datatype Option<+T> = None | Some(value: T) {
    predicate IsFailure() { None? }

    function PropagateFailure<U>(): Option<U>
      requires None?
    {
      None
    }

    function Extract(): T
      requires Some?
    {
      value
    }
  }

  datatype Result<+T, +E> = Ok(value: T) | Err(error: E)

  function Min(a: int, b: int): int { if a <= b then a else b }

  function Max(a: int, b: int): int { if a >= b then a else b }
}

/** Order and multiplicity of elements in a sequence. */
module Sequences {

  predicate Distinct<T(==)>(s: seq<T>) {
    forall i, j :: 0 <= i < j < |s| ==> s[i] != s[j]
  }

  /** `at` gives, in increasing order, where in `ys` the elements of `xs` are. */
  ghost predicate Embeds<T>(at: seq<nat>, xs: seq<T>, ys: seq<T>) {
    && |at| == |xs|
    && (forall i :: 0 <= i < |at| ==> at[i] < |ys| && ys[at[i]] == xs[i])
    && (forall i, j :: 0 <= i < j < |at| ==> at[i] < at[j])
  }

  /** `xs` can be had from `ys` by deleting elements. */
  ghost predicate Sub<T>(xs: seq<T>, ys: seq<T>) {
    exists at: seq<nat> :: Embeds(at, xs, ys)
  }

  lemma SubEmpty<T>(ys: seq<T>)
    ensures Sub([], ys)
  {
    assert Embeds([], [], ys);
  }

  lemma SubAppend<T>(xs: seq<T>, ys: seq<T>, e: T)
    requires Sub(xs, ys)
    ensures Sub(xs + [e], ys + [e])
  {
    var at: seq<nat> :| Embeds(at, xs, ys);
    var longer: seq<nat> := at + [|ys|];
    assert Embeds(longer, xs + [e], ys + [e]);
  }

  /** Deleting a middle part keeps a subsequence a subsequence. */
  lemma SubDelete<T>(a: seq<T>, b: seq<T>, c: seq<T>, ys: seq<T>)
    requires Sub(a + b + c, ys)
    ensures Sub(a + c, ys)
  {
    var all := a + b + c;
    var at: seq<nat> :| Embeds(at, all, ys);
    var k, m := |a|, |a| + |b|;
    var less: seq<nat> := at[..k] + at[m..];
    forall i | 0 <= i < |less| ensures less[i] < |ys| && ys[less[i]] == (a + c)[i] {
      var j := if i < k then i else i + |b|;
      assert less[i] == at[j] && (a + c)[i] == all[j];
    }
    assert Embeds(less, a + c, ys);
  }

  lemma DistinctMultiset<T>(s: seq<T>)
    requires Distinct(s)
    ensures forall x :: multiset(s)[x] <= 1
  {
    if s != [] {
      var init, last := s[..|s| - 1], s[|s| - 1];
      assert s == init + [last];
      DistinctMultiset(init);
      assert last !in init;
    }
  }

  lemma MultisetDistinct<T>(s: seq<T>)
    requires forall x :: multiset(s)[x] <= 1
    ensures Distinct(s)
  {
    forall i, j | 0 <= i < j < |s| ensures s[i] != s[j] {
      assert s == s[..j] + s[j..];
      assert s[i] in s[..j] && s[j] in s[j..];
      assert multiset(s)[s[i]] == multiset(s[..j])[s[i]] + multiset(s[j..])[s[i]];
    }
  }
}
