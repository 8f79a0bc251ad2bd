/** Sets and lists in some order. */
module Collections {
  /** The elements of a set in some order, each once. */
  method Enumerate<T>(s: set<T>) returns (q: seq<T>)
    ensures forall x :: x in q <==> x in s
    ensures |q| == |s|
  {
    q := [];
    var rest := s;
    while rest != {}
      invariant rest <= s
      invariant forall x :: x in q <==> x in s - rest
      invariant |q| + |rest| == |s|
    {
      var x :| x in rest;
      q, rest := q + [x], rest - {x};
    }
  }

  /** The numbers of a list, each once. */
  method Deduped(s: seq<nat>) returns (q: seq<nat>)
    ensures forall x :: x in q <==> x in s
    ensures forall i, j | 0 <= i < j < |q| :: q[i] != q[j]
  {
    q := [];
    for n := 0 to |s|
      invariant forall x :: x in q <==> x in s[..n]
      invariant forall i, j | 0 <= i < j < |q| :: q[i] != q[j]
    {
      assert s[..n + 1] == s[..n] + [s[n]];
      if s[n] !in q {
        q := q + [s[n]];
      }
    }
    assert s[..|s|] == s;
  }
}
