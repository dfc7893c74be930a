/**
 The list computation behind both delete handlers: `list.filter((x) =>
 x.id !== id)`, written once for any record type with an id.
 */
module Lists {

  /** The entries of `s` whose id is not `id`, in their original order. */
  function Without<T>(s: seq<T>, idOf: T -> string, id: string): (r: seq<T>)
    ensures |r| <= |s|
    ensures forall x :: x in r ==> x in s && idOf(x) != id
    ensures forall x :: x in s && idOf(x) != id ==> x in r
  {
    if s == [] then []
    else if idOf(s[0]) == id then Without(s[1..], idOf, id)
    else [s[0]] + Without(s[1..], idOf, id)
  }

  /** The number of entries of `s` whose id is `id`. */
  function CountId<T>(s: seq<T>, idOf: T -> string, id: string): nat
  {
    if s == [] then 0 else (if idOf(s[0]) == id then 1 else 0) + CountId(s[1..], idOf, id)
  }

  /** `a` keeps its order inside `b`: it is `b` with some entries dropped. */
  ghost predicate IsSubsequence<T>(a: seq<T>, b: seq<T>)
  {
    if a == [] then true
    else if b == [] then false
    else if a[0] == b[0] then IsSubsequence(a[1..], b[1..])
    else IsSubsequence(a, b[1..])
  }

  /** Filtering a concatenation filters each part. */
  lemma {:induction false} WithoutAppend<T>(a: seq<T>, b: seq<T>, idOf: T -> string, id: string)
    ensures Without(a + b, idOf, id) == Without(a, idOf, id) + Without(b, idOf, id)
  {
    if a == [] {
      assert a + b == b;
    } else {
      assert (a + b)[0] == a[0];
      assert (a + b)[1..] == a[1..] + b;
      WithoutAppend(a[1..], b, idOf, id);
    }
  }

  /** Deleting an id that no entry has leaves the list as it was. */
  lemma {:induction false} WithoutAbsent<T>(s: seq<T>, idOf: T -> string, id: string)
    requires forall i :: 0 <= i < |s| ==> idOf(s[i]) != id
    ensures Without(s, idOf, id) == s
  {
    if s != [] {
      WithoutAbsent(s[1..], idOf, id);
    }
  }

  /** Deleting the same id twice is deleting it once. */
  lemma WithoutIdempotent<T>(s: seq<T>, idOf: T -> string, id: string)
    ensures Without(Without(s, idOf, id), idOf, id) == Without(s, idOf, id)
  {
  }

  /** Every entry with the id goes, every other entry stays: the list
      shrinks by the number of entries that have the id. */
  lemma {:induction false} WithoutLength<T>(s: seq<T>, idOf: T -> string, id: string)
    ensures |Without(s, idOf, id)| == |s| - CountId(s, idOf, id)
  {
    if s != [] {
      WithoutLength(s[1..], idOf, id);
    }
  }

  /** Each entry whose id differs occurs in the result exactly as often as
      in the list; entries with the id do not occur at all. */
  lemma {:induction false} WithoutMultiplicity<T>(s: seq<T>, idOf: T -> string, id: string, x: T)
    ensures multiset(Without(s, idOf, id))[x] == if idOf(x) == id then 0 else multiset(s)[x]
  {
    if s != [] {
      WithoutMultiplicity(s[1..], idOf, id, x);
      assert s == [s[0]] + s[1..];
      assert multiset(s) == multiset{s[0]} + multiset(s[1..]);
    }
  }

  /** The result keeps the original relative order of the list. */
  lemma {:induction false} WithoutIsSubsequence<T>(s: seq<T>, idOf: T -> string, id: string)
    ensures IsSubsequence(Without(s, idOf, id), s)
  {
    if s != [] {
      WithoutIsSubsequence(s[1..], idOf, id);
      var r := Without(s, idOf, id);
      if idOf(s[0]) == id {
        DropFrontKeepsSubsequence(r, s);
      } else {
        assert r[0] == s[0] && r[1..] == Without(s[1..], idOf, id);
      }
    }
  }

  /** A subsequence of the tail of `b` is a subsequence of `b`. */
  lemma {:induction false} DropFrontKeepsSubsequence<T>(a: seq<T>, b: seq<T>)
    requires b != [] && IsSubsequence(a, b[1..])
    ensures IsSubsequence(a, b)
    decreases |a| + |b|
  {
    if a != [] && a[0] == b[0] {
      SubsequenceOfTailOfFirst(a, b[1..]);
    }
  }

  /** Dropping the head of a subsequence keeps a subsequence. */
  lemma {:induction false} SubsequenceOfTailOfFirst<T>(a: seq<T>, b: seq<T>)
    requires a != [] && IsSubsequence(a, b)
    ensures IsSubsequence(a[1..], b)
    decreases |a| + |b|
  {
    if a[0] == b[0] {
      DropFrontKeepsSubsequence(a[1..], b);
    } else {
      SubsequenceOfTailOfFirst(a, b[1..]);
      DropFrontKeepsSubsequence(a[1..], b);
    }
  }

  /** When exactly one entry has the id -- the only case in which deleting
      shrinks the list by one -- that entry alone is removed. */
  lemma WithoutUnique<T>(s: seq<T>, idOf: T -> string, id: string, k: nat)
    requires k < |s| && idOf(s[k]) == id
    requires forall i :: 0 <= i < |s| && i != k ==> idOf(s[i]) != id
    ensures Without(s, idOf, id) == s[..k] + s[k + 1..]
    ensures |Without(s, idOf, id)| == |s| - 1
  {
    assert s == s[..k] + ([s[k]] + s[k + 1..]);
    WithoutAppend(s[..k], [s[k]] + s[k + 1..], idOf, id);
    WithoutAppend([s[k]], s[k + 1..], idOf, id);
    WithoutAbsent(s[..k], idOf, id);
    var after := s[k + 1..];
    forall i | 0 <= i < |after| ensures idOf(after[i]) != id {
      assert after[i] == s[k + 1 + i];
    }
    WithoutAbsent(after, idOf, id);
    assert [s[k]][1..] == [];
  }
}
