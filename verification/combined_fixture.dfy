/**
  The pair of records the fixture generator returns: each is a dictionary
  holding one document of each of the three other fixture pairs, under
  the keys "1", "2" and "3" in the same order.
 */
module CombinedFixture {
  import opened Wrappers
  import opened Nodes
  import opened Canonicalise
  import opened Fallback
  import opened Compare
  import HoldingsFixture
  import ErrorsFixture
  import NestedFixture

  function Bundle(x: Node, y: Node, z: Node): Node {
    Dict([Entry("1", x), Entry("2", y), Entry("3", z)])
  }

  function R1(): Node {
    Bundle(HoldingsFixture.J1(), ErrorsFixture.J3(), NestedFixture.RecordA())
  }

  function R2(): Node {
    Bundle(HoldingsFixture.J2(), ErrorsFixture.J4(), NestedFixture.RecordB())
  }

  /** One part that cannot be canonicalised makes the bundle fail too. */
  lemma {:induction false} BundleUnordered(x: Node, y: Node, z: Node)
    requires Ordered(y).Err?
    ensures Ordered(Bundle(x, y, z)).Err?
  {
    var d := Bundle(x, y, z).entries;
    assert !Ordered(d[1].value).Ok?;
  }

  /** Two bundles differing in one part are not `==`. */
  lemma {:induction false} BundlesDiffer(x: Node, y: Node, z: Node, x': Node, y': Node, z': Node)
    requires !PyEq(y, y')
    ensures !PyEq(Bundle(x, y, z), Bundle(x', y', z'))
  {
    var d, e := Bundle(x, y, z).entries, Bundle(x', y', z').entries;
    assert Get(e, "2") == y';
    assert !PyEq(d[1].value, Get(e, d[1].key));
  }

  /** Bundles of dictionaries that the fallback accepts part by part are
      accepted as a whole. */
  lemma {:induction false} BundlesFallback(x: Node, y: Node, z: Node, x': Node, y': Node, z': Node, ev: Eval)
    requires x.Dict? && y.Dict? && z.Dict?
    requires ObjCmp(x, x', ev) == Ok(true) && ObjCmp(y, y', ev) == Ok(true) && ObjCmp(z, z', ev) == Ok(true)
    ensures ObjCmp(Bundle(x, y, z), Bundle(x', y', z'), ev) == Ok(true)
  {
    var d, e := Bundle(x, y, z).entries, Bundle(x', y', z').entries;
    assert ValueCmp(d[0].value, e[0].value, ev) == Ok(true);
    assert ValueCmp(d[1].value, e[1].value, ev) == Ok(true);
    assert ValueCmp(d[2].value, e[2].value, ev) == Ok(true);
    DictCmpAcceptsAt(d, e, [0, 1, 2], ev);
  }

  /** Bundles that are not `==` because of a part that cannot be
      canonicalised are compared by the fallback. */
  lemma {:induction false} BundlesCompare(x: Node, y: Node, z: Node, x': Node, y': Node, z': Node, ev: Eval)
    requires x.Dict? && y.Dict? && z.Dict?
    requires !PyEq(y, y') && Ordered(y).Err?
    requires ObjCmp(x, x', ev) == Ok(true) && ObjCmp(y, y', ev) == Ok(true) && ObjCmp(z, z', ev) == Ok(true)
    ensures RecordCompare(Bundle(x, y, z), Bundle(x', y', z'), ev)
  {
    BundlesDiffer(x, y, z, x', y', z');
    BundleUnordered(x, y, z);
    BundlesFallback(x, y, z, x', y', z', ev);
  }

  /** The fixture's three pairs, bundled, compare equal. */
  lemma {:induction false} FixturesBundled(x: Node, y: Node, z: Node, x': Node, y': Node, z': Node, ev: Eval)
    requires x == HoldingsFixture.J1() && y == ErrorsFixture.J3() && z == NestedFixture.RecordA()
    requires x' == HoldingsFixture.J2() && y' == ErrorsFixture.J4() && z' == NestedFixture.RecordB()
    requires NeverRaises(ev)
    ensures RecordCompare(Bundle(x, y, z), Bundle(x', y', z'), ev)
  {
    ErrorsFixture.J3J4Differ();
    ErrorsFixture.J3Unordered();
    HoldingsFixture.J1J2Fallback(ev);
    ErrorsFixture.J3J4Fallback(ev);
    NestedFixture.ABFallback(ev);
    BundlesCompare(x, y, z, x', y', z', ev);
  }

  /** The two records are neither `==` nor both canonicalisable, so the
      verdict falls to the fallback, which accepts them. */
  lemma {:induction false} R1R2(ev: Eval)
    requires NeverRaises(ev)
    ensures RecordCompare(R1(), R2(), ev)
  {
    FixturesBundled(HoldingsFixture.J1(), ErrorsFixture.J3(), NestedFixture.RecordA(), HoldingsFixture.J2(), ErrorsFixture.J4(), NestedFixture.RecordB(), ev);
  }
}
