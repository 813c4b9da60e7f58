/** Sequence operations behind the editable lists of the two forms. */
module ListOps {

  /** `s.filter((_, i) => i !== index)`: walks the list and keeps every
      element whose position differs from `index`. */
  function RemoveAt<T>(s: seq<T>, index: int): (r: seq<T>)
    ensures 0 <= index < |s| ==> r == s[..index] + s[index + 1..]
    ensures !(0 <= index < |s|) ==> r == s
  {
    if s == [] then []
    else (if index == 0 then [] else [s[0]]) + RemoveAt(s[1..], index - 1)
  }

  /** Removing an element in range shortens the list by one and takes
      exactly that element out of its multiset. */
  lemma {:induction false} RemoveAtRemovesOne<T>(s: seq<T>, index: int)
    requires 0 <= index < |s|
    ensures |RemoveAt(s, index)| == |s| - 1
    ensures multiset(RemoveAt(s, index)) + multiset{s[index]} == multiset(s)
  {
    var r := RemoveAt(s, index);
    assert r == s[..index] + s[index + 1..];
    assert s == s[..index] + [s[index]] + s[index + 1..];
    calc {
      multiset(s);
      multiset(s[..index]) + multiset([s[index]]) + multiset(s[index + 1..]);
      multiset(r) + multiset{s[index]};
    }
  }

  /** Removing the last element of `s + [x]` gives `s` back. */
  lemma RemoveAtAfterAppend<T>(s: seq<T>, x: T)
    ensures RemoveAt(s + [x], |s|) == s
  {
  }

  /** `a` can be obtained from `b` by deleting elements (order is kept). */
  predicate IsSubsequence<T(==)>(a: seq<T>, b: seq<T>)
    decreases |b|
  {
    if a == [] then true
    else if b == [] then false
    else (a[0] == b[0] && IsSubsequence(a[1..], b[1..])) || IsSubsequence(a, b[1..])
  }

  /** Every element of a subsequence is an element of the sequence. */
  lemma {:induction false} SubsequenceElements<T>(a: seq<T>, b: seq<T>, x: T)
    requires IsSubsequence(a, b)
    requires x in a
    ensures x in b
    decreases |b|
  {
    if a[0] == b[0] && IsSubsequence(a[1..], b[1..]) {
      if x != a[0] {
        SubsequenceElements(a[1..], b[1..], x);
      }
    } else {
      SubsequenceElements(a, b[1..], x);
    }
  }

  /** No two positions of `s` hold the same element. */
  predicate Distinct<T(==)>(s: seq<T>)
  {
    forall i, j :: 0 <= i < j < |s| ==> s[i] != s[j]
  }

  /** A list without repeats has as many distinct elements as positions. */
  lemma {:induction false} DistinctCardinality<T>(s: seq<T>)
    requires Distinct(s)
    ensures |set x | x in s| == |s|
  {
    if s != [] {
      var n := |s| - 1;
      var init := s[..n];
      assert Distinct(init);
      DistinctCardinality(init);
      assert s == init + [s[n]];
      assert (set x | x in s) == (set x | x in init) + {s[n]};
      assert s[n] !in init;
    }
  }
}
