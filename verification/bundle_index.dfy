/** totalBundlePrioSet_: a std::set of shared bundle objects ordered by
    BundleInfoPtrCmp. The index holds uids; the keys it is ordered by are read
    from the live bundles, as the comparator reads them through the pointers. */
module BundleIndex {
  import opened RegistryTypes

  type Bundles = map<int, Bundle>

  function Key(bs: Bundles, u: int): int {
    if u in bs then bs[u].priority else PRIORITY_UNKNOWN
  }

  /** BundleInfoPtrCmp. */
  predicate Less(bs: Bundles, u: int, v: int) {
    if u == v then false
    else if Key(bs, u) != Key(bs, v) then Key(bs, u) < Key(bs, v)
    else u < v
  }

  predicate Sorted(bs: Bundles, index: seq<int>) {
    forall i, j :: 0 <= i < j < |index| ==> Less(bs, index[i], index[j])
  }

  /** std::set::lower_bound: the first position not ordered before u. */
  function LowerBound(bs: Bundles, index: seq<int>, u: int): (k: nat)
    ensures k <= |index|
    ensures forall i :: 0 <= i < k ==> Less(bs, index[i], u)
    ensures k < |index| ==> !Less(bs, index[k], u)
  {
    if index == [] || !Less(bs, index[0], u) then 0
    else
      assert forall i :: 0 <= i < |index| - 1 ==> index[1..][i] == index[i + 1];
      1 + LowerBound(bs, index[1..], u)
  }

  /** std::set::erase by key: drops the element equivalent to u, if any. */
  function Erase(bs: Bundles, index: seq<int>, u: int): seq<int>
  {
    var k := LowerBound(bs, index, u);
    if k < |index| && !Less(bs, u, index[k]) then index[..k] + index[k + 1..] else index
  }

  /** std::set::insert: refused when an equivalent element is present. */
  function Insert(bs: Bundles, index: seq<int>, u: int): seq<int>
  {
    var k := LowerBound(bs, index, u);
    if k < |index| && !Less(bs, u, index[k]) then index else Splice(index, k, u)
  }

  lemma LessTransitive(bs: Bundles, u: int, v: int, w: int)
    requires Less(bs, u, v) && Less(bs, v, w)
    ensures Less(bs, u, w)
  {
  }

  /** In a sorted index the search by comparator stops at u itself. */
  lemma FindsTarget(bs: Bundles, index: seq<int>, u: int)
    requires Sorted(bs, index) && u in index
    ensures LowerBound(bs, index, u) < |index|
    ensures index[LowerBound(bs, index, u)] == u
  {
    var k := LowerBound(bs, index, u);
    var i :| 0 <= i < |index| && index[i] == u;
    assert !Less(bs, index[i], u);
    assert k <= i;
  }

  /** Erasing by comparator removes exactly its target. */
  lemma EraseTarget(bs: Bundles, index: seq<int>, u: int)
    requires Sorted(bs, index) && u in index
    ensures Sorted(bs, Erase(bs, index, u))
    ensures u !in Erase(bs, index, u)
    ensures forall v :: v != u ==> (v in Erase(bs, index, u) <==> v in index)
  {
    FindsTarget(bs, index, u);
    var k := LowerBound(bs, index, u);
    var rest := Erase(bs, index, u);
    assert rest == index[..k] + index[k + 1..];
    forall i | 0 <= i < |rest|
      ensures rest[i] == index[if i < k then i else i + 1]
    {
    }
    forall v | v != u && v in index
      ensures v in rest
    {
      var i :| 0 <= i < |index| && index[i] == v;
      assert rest[if i < k then i else i - 1] == v;
    }
  }

  /** Everything from the lower bound on is ordered after an absent u. */
  lemma AfterLowerBound(bs: Bundles, index: seq<int>, u: int, i: nat)
    requires Sorted(bs, index) && u !in index
    requires LowerBound(bs, index, u) <= i < |index|
    ensures Less(bs, u, index[i])
  {
    var k := LowerBound(bs, index, u);
    assert index[k] in index;
    if k < i {
      LessTransitive(bs, u, index[k], index[i]);
    }
  }

  /** Inserting an absent uid adds exactly it, in order. */
  lemma InsertAbsent(bs: Bundles, index: seq<int>, u: int)
    requires Sorted(bs, index) && u !in index
    ensures Sorted(bs, Insert(bs, index, u))
    ensures forall v :: v in Insert(bs, index, u) <==> v == u || v in index
  {
    var k := LowerBound(bs, index, u);
    if k < |index| { AfterLowerBound(bs, index, u, k); }
    SpliceMembers(index, k, u);
    forall i, j | 0 <= i < j < |index| + 1
      ensures Less(bs, Splice(index, k, u)[i], Splice(index, k, u)[j])
    {
      if i == k { AfterLowerBound(bs, index, u, j - 1); }
    }
  }

  function Splice(index: seq<int>, k: nat, u: int): (r: seq<int>)
    requires k <= |index|
    ensures |r| == |index| + 1
    ensures forall i :: 0 <= i < |r| ==>
      r[i] == if i < k then index[i] else if i == k then u else index[i - 1]
  {
    index[..k] + [u] + index[k..]
  }

  lemma SpliceMembers(index: seq<int>, k: nat, u: int)
    requires k <= |index|
    ensures forall v :: v in Splice(index, k, u) <==> v == u || v in index
  {
    var r := Splice(index, k, u);
    assert r[k] == u;
    forall v | v in index
      ensures v in r
    {
      var i :| 0 <= i < |index| && index[i] == v;
      assert r[if i < k then i else i + 1] == v;
    }
  }

  /** A change of keys that the index does not contain leaves it sorted. */
  lemma SortedElsewhere(bs: Bundles, bs': Bundles, index: seq<int>)
    requires Sorted(bs, index)
    requires forall u :: u in index ==> Key(bs', u) == Key(bs, u)
    ensures Sorted(bs', index)
  {
    assert forall i :: 0 <= i < |index| ==> index[i] in index;
  }
}
