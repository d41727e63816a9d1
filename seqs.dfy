/** Order and uniqueness facts about sequences, shared by the catalog and the category list. */
module Seqs {

  /** No element occurs twice. */
  predicate NoDuplicates<T(==)>(s: seq<T>) {
    forall i, j :: 0 <= i < j < |s| ==> s[i] != s[j]
  }

  /** `a` is `b` with some elements dropped and the others kept in their order. */
  predicate IsSubsequence<T(==)>(a: seq<T>, b: seq<T>)
    decreases |b|
  {
    if a == [] then true
    else if b == [] then false
    else (a[0] == b[0] && IsSubsequence(a[1..], b[1..])) || IsSubsequence(a, b[1..])
  }

  /** Every element of a subsequence is an element of the whole. */
  lemma {:induction false} SubsequenceElements<T>(a: seq<T>, b: seq<T>)
    requires IsSubsequence(a, b)
    ensures forall x :: x in a ==> x in b
    decreases |b|
  {
    if a != [] {
      if a[0] == b[0] && IsSubsequence(a[1..], b[1..]) {
        SubsequenceElements(a[1..], b[1..]);
        assert forall x :: x in a ==> x == a[0] || x in a[1..];
      } else {
        SubsequenceElements(a, b[1..]);
      }
    }
  }

  /** A subsequence of a duplicate-free sequence is duplicate-free. */
  lemma {:induction false} SubsequenceNoDuplicates<T>(a: seq<T>, b: seq<T>)
    requires IsSubsequence(a, b) && NoDuplicates(b)
    ensures NoDuplicates(a)
    decreases |b|
  {
    if a != [] {
      assert NoDuplicates(b[1..]) by {
        forall i, j | 0 <= i < j < |b[1..]| ensures b[1..][i] != b[1..][j] {
          assert b[1..][i] == b[i + 1] && b[1..][j] == b[j + 1];
        }
      }
      if a[0] == b[0] && IsSubsequence(a[1..], b[1..]) {
        SubsequenceNoDuplicates(a[1..], b[1..]);
        SubsequenceElements(a[1..], b[1..]);
        forall i, j | 0 <= i < j < |a| ensures a[i] != a[j] {
          if i == 0 {
            assert a[j] == a[1..][j - 1];
            assert a[j] in b[1..];
            var k :| 0 <= k < |b[1..]| && b[1..][k] == a[j];
            assert b[k + 1] == a[j];
          } else {
            assert a[i] == a[1..][i - 1] && a[j] == a[1..][j - 1];
          }
        }
      } else {
        SubsequenceNoDuplicates(a, b[1..]);
      }
    }
  }
}
