/** Small value types and sequence helpers shared by the tab table. */
module Common {

  /** Python's `None` or a value. */
  datatype Option<T> = None | Some(value: T)

  /** No element occurs twice (the keys of a dict, the pages of a notebook). */
  predicate NoDuplicates<T(==)>(s: seq<T>) {
    forall i, j :: 0 <= i < j < |s| ==> s[i] != s[j]
  }

  /** `s` with every occurrence of `x` taken out, the rest kept in order. */
  function Without<T(==)>(s: seq<T>, x: T): (r: seq<T>)
    ensures |r| <= |s|
    ensures x !in r
  {
    if s == [] then []
    else if s[0] == x then Without(s[1..], x)
    else [s[0]] + Without(s[1..], x)
  }

  /** Nothing but `x` leaves, and no page is repeated that was not before. */
  lemma {:induction false} WithoutMembers<T>(s: seq<T>, x: T)
    ensures forall i :: 0 <= i < |Without(s, x)| ==> Without(s, x)[i] in s
    ensures forall i :: 0 <= i < |s| && s[i] != x ==> s[i] in Without(s, x)
    ensures NoDuplicates(s) ==> NoDuplicates(Without(s, x))
  {
    if s != [] {
      WithoutMembers(s[1..], x);
      var t := s[1..];
      assert forall i :: 1 <= i < |s| ==> s[i] == t[i - 1];
    }
  }

  /** Taking out a page that occurs only at index `k` closes the gap it
      leaves and moves nothing else. */
  lemma {:induction false} WithoutSingle<T>(s: seq<T>, x: T, k: nat)
    requires k < |s| && s[k] == x
    requires forall i :: 0 <= i < |s| && i != k ==> s[i] != x
    ensures Without(s, x) == s[..k] + s[k + 1..]
  {
    var t := s[1..];
    if k == 0 {
      assert forall i :: 0 <= i < |t| ==> t[i] == s[i + 1];
      WithoutAbsent(t, x);
    } else {
      assert s[0] != x;
      assert forall i :: 0 <= i < |t| && i != k - 1 ==> t[i] == s[i + 1];
      WithoutSingle(t, x, k - 1);
      assert s[..k] == [s[0]] + s[1..][..k - 1];
      assert s[1..][k..] == s[k + 1..];
    }
  }

  /** Taking out an absent element changes nothing. */
  lemma {:induction false} WithoutAbsent<T>(s: seq<T>, x: T)
    requires forall i :: 0 <= i < |s| ==> s[i] != x
    ensures Without(s, x) == s
  {
    if s != [] {
      WithoutAbsent(s[1..], x);
    }
  }
}
