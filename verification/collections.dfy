/** Order-dependent views of finite sets: the least element under a cap, and
    the ascending enumeration in which std::map iterates over its keys. */
module Collections {

  ghost function AnyOf<T>(xs: set<T>): (x: T)
    requires xs != {}
    ensures x in xs
  {
    var x :| x in xs; x
  }

  lemma MapEqual<K, V>(a: map<K, V>, b: map<K, V>)
    requires forall k :: k in a <==> k in b
    requires forall k :: k in a ==> a[k] == b[k]
    ensures a == b
  {
  }

  /** The least of cap and the elements of xs. */
  ghost function Least(cap: int, xs: set<int>): (m: int)
    ensures m <= cap
    ensures forall x :: x in xs ==> m <= x
    ensures m == cap || m in xs
  {
    if xs == {} then cap
    else
      var x := AnyOf(xs);
      var m := Least(cap, xs - {x});
      assert forall y :: y in xs ==> y == x || y in xs - {x};
      if x < m then x else m
  }

  /** Those three facts determine it. */
  lemma LeastIs(cap: int, xs: set<int>, m: int)
    requires m <= cap && (forall x :: x in xs ==> m <= x) && (m == cap || m in xs)
    ensures m == Least(cap, xs)
  {
  }

  predicate Increasing(q: seq<int>) {
    forall i, j :: 0 <= i < j < |q| ==> q[i] < q[j]
  }

  ghost function MinimumWitness(xs: set<int>): (m: int)
    requires xs != {}
    ensures m in xs && forall x :: x in xs ==> m <= x
  {
    var x := AnyOf(xs);
    Least(x, xs)
  }

  function Minimum(xs: set<int>): (m: int)
    requires xs != {}
    ensures m in xs && forall x :: x in xs ==> m <= x
  {
    ghost var w := MinimumWitness(xs);
    var m :| m in xs && forall x :: x in xs ==> m <= x;
    m
  }

  /** The elements of xs, each once, in increasing order. */
  function Ascending(xs: set<int>): (q: seq<int>)
    ensures Increasing(q)
    ensures forall x :: x in q <==> x in xs
    decreases |xs|
  {
    if xs == {} then []
    else
      var m := Minimum(xs);
      var rest := Ascending(xs - {m});
      assert forall i :: 0 <= i < |rest| ==> rest[i] in rest;
      [m] + rest
  }

  /** The next element of an ascending enumeration is new. */
  lemma NextAscending(q: seq<int>, i: nat)
    requires Increasing(q) && i < |q|
    ensures q[i] in q && q[i] !in q[..i]
    ensures forall x :: x in q[..i + 1] <==> x in q[..i] || x == q[i]
  {
    assert q[..i + 1] == q[..i] + [q[i]];
  }
}
