/** Lists of distinct elements, as the linked lists of a connection hold them. */
module Lists {
  predicate Distinct<T(==)>(s: seq<T>) {
    forall i, j :: 0 <= i < j < |s| ==> s[i] != s[j]
  }

  /** The list with `x` unlinked. */
  function Without<T(==)>(s: seq<T>, x: T): seq<T> {
    if s == [] then [] else if s[0] == x then s[1..] else [s[0]] + Without(s[1..], x)
  }

  lemma AppendedIsDistinct<T>(s: seq<T>, x: T)
    requires Distinct(s) && x !in s
    ensures Distinct(s + [x]) && Distinct([x] + s)
    ensures forall y :: y in s + [x] <==> y in s || y == x
    ensures forall y :: y in [x] + s <==> y in s || y == x
  {
  }

  lemma {:induction false} WithoutIsUnlinked<T>(s: seq<T>, x: T)
    requires Distinct(s) && x in s
    ensures |Without(s, x)| == |s| - 1 && Distinct(Without(s, x))
    ensures forall y :: y in Without(s, x) <==> y in s && y != x
  {
    if s[0] != x {
      assert s == [s[0]] + s[1..];
      WithoutIsUnlinked(s[1..], x);
      AppendedIsDistinct(Without(s[1..], x), s[0]);
    }
  }
}
