/**
  The third fixture pair: a record whose `N` field nests dictionaries in
  lists in dictionaries, against a copy in which the keys of two
  dictionaries and the items of two lists come in the opposite order.
 */
module NestedFixture {
  import opened Wrappers
  import opened Nodes
  import opened Seqs
  import opened CanonicalOrder
  import opened Sorting
  import opened Canonicalise
  import opened Fallback
  import opened Compare

  function DictObj(): Node { Dict([Entry("foo", Str("bar")), Entry("john", Str("doe"))]) }
  function ReorderedDictObj(): Node { Dict([Entry("john", Str("doe")), Entry("foo", Str("bar"))]) }
  function DictObj2(): Node { Dict([Entry("abc", Str("def"))]) }
  function XLeft(): Node { Dict([Entry("X", List([DictObj2(), DictObj()]))]) }
  function XRight(): Node { Dict([Entry("X", List([ReorderedDictObj(), DictObj2()]))]) }
  function YTwo(): Node { Dict([Entry("Y", Int(2))]) }
  function DictWithListsInValue(): Node {
    Dict([Entry("A", List([XLeft(), YTwo()])), Entry("B", DictObj2())])
  }
  function ReorderedDictWithReorderedListsInValue(): Node {
    Dict([Entry("B", DictObj2()), Entry("A", List([YTwo(), XRight()]))])
  }
  function RecordA(): Node { Dict([Entry("L", Str("M")), Entry("N", DictWithListsInValue())]) }
  function RecordB(): Node { Dict([Entry("L", Str("M")), Entry("N", ReorderedDictWithReorderedListsInValue())]) }

  lemma {:induction false} SelfRearranged(n: Node)
    requires WellFormed(n)
    ensures Rearranged(n, n)
  {
    PyEqReflexive(n);
    PyEqRearranged(n, n);
  }

  /** Two items given in the opposite order. */
  lemma {:induction false} SwappedItems(a: Node, b: Node, a': Node, b': Node)
    requires Rearranged(a, b') && Rearranged(b, a')
    ensures ItemsRearranged([a, b], [a', b'])
  {
    var xs, ys := [a, b], [a', b'];
    assert RemoveAt(ys, 1) == [a'];
    assert RemoveAt([a'], 0) == [];
    assert xs[1..] == [b] && xs[1..][1..] == [];
    assert ItemsRearranged([b], [a']);
  }

  lemma {:induction false} OneKeyRearranged(d: seq<Entry>, e: seq<Entry>)
    requires |d| == 1 && |e| == 1 && d[0].key == e[0].key
    requires Rearranged(d[0].value, e[0].value)
    ensures Rearranged(Dict(d), Dict(e))
  {
    EntriesRearrangedAt(d, e, [0]);
  }

  lemma {:induction false} TwoKeysRearranged(d: seq<Entry>, e: seq<Entry>)
    requires |d| == 2 && |e| == 2 && DistinctKeys(e)
    requires d[0].key == e[0].key && d[1].key == e[1].key
    requires Rearranged(d[0].value, e[0].value) && Rearranged(d[1].value, e[1].value)
    ensures Rearranged(Dict(d), Dict(e))
  {
    EntriesRearrangedAt(d, e, [0, 1]);
  }

  lemma {:induction false} TwoKeysSwappedRearranged(d: seq<Entry>, e: seq<Entry>)
    requires |d| == 2 && |e| == 2 && DistinctKeys(e)
    requires d[0].key == e[1].key && d[1].key == e[0].key
    requires Rearranged(d[0].value, e[1].value) && Rearranged(d[1].value, e[0].value)
    ensures Rearranged(Dict(d), Dict(e))
  {
    EntriesRearrangedAt(d, e, [1, 0]);
  }

  lemma DictObjRearranged()
    ensures Rearranged(DictObj(), ReorderedDictObj())
  {
    PyEqRearranged(Str("bar"), Str("bar"));
    PyEqRearranged(Str("doe"), Str("doe"));
    TwoKeysSwappedRearranged(DictObj().entries, ReorderedDictObj().entries);
  }

  lemma XRearranged()
    ensures Rearranged(XLeft(), XRight())
  {
    DictObjRearranged();
    SelfRearranged(DictObj2());
    SwappedItems(DictObj2(), DictObj(), ReorderedDictObj(), DictObj2());
    OneKeyRearranged(XLeft().entries, XRight().entries);
  }

  lemma OuterListRearranged()
    ensures Rearranged(List([XLeft(), YTwo()]), List([YTwo(), XRight()]))
  {
    XRearranged();
    SelfRearranged(YTwo());
    SwappedItems(XLeft(), YTwo(), YTwo(), XRight());
  }

  /** A two-key dictionary against its keys swapped, values rearranged. */
  lemma {:induction false} SwappedPairRearranged(k1: string, v1: Node, k2: string, v2: Node, v1': Node, v2': Node)
    requires k1 != k2 && Rearranged(v1, v1') && Rearranged(v2, v2')
    ensures Rearranged(Dict([Entry(k1, v1), Entry(k2, v2)]), Dict([Entry(k2, v2'), Entry(k1, v1')]))
  {
    TwoKeysSwappedRearranged([Entry(k1, v1), Entry(k2, v2)], [Entry(k2, v2'), Entry(k1, v1')]);
  }

  lemma ListsInValueRearranged()
    ensures Rearranged(DictWithListsInValue(), ReorderedDictWithReorderedListsInValue())
  {
    OuterListRearranged();
    SelfRearranged(DictObj2());
    SwappedPairRearranged("A", List([XLeft(), YTwo()]), "B", DictObj2(), List([YTwo(), XRight()]), DictObj2());
  }

  lemma ABRearranged()
    ensures Rearranged(RecordA(), RecordB())
  {
    ListsInValueRearranged();
    PyEqRearranged(Str("M"), Str("M"));
    TwoKeysRearranged(RecordA().entries, RecordB().entries);
  }

  lemma {:induction false} WellFormedOne(k: string, v: Node)
    requires WellFormed(v)
    ensures WellFormed(Dict([Entry(k, v)]))
  {
  }

  lemma {:induction false} WellFormedTwo(k1: string, v1: Node, k2: string, v2: Node)
    requires k1 != k2 && WellFormed(v1) && WellFormed(v2)
    ensures WellFormed(Dict([Entry(k1, v1), Entry(k2, v2)]))
  {
  }

  lemma {:induction false} OrderedOne(k: string, v: Node)
    requires Ordered(v).Ok?
    ensures Ordered(Dict([Entry(k, v)])).Ok?
  {
    OrderedDictShape([Entry(k, v)]);
  }

  lemma {:induction false} OrderedTwo(k1: string, v1: Node, k2: string, v2: Node)
    requires k1 != k2 && Ordered(v1).Ok? && Ordered(v2).Ok?
    ensures Ordered(Dict([Entry(k1, v1), Entry(k2, v2)])).Ok?
  {
    var d := [Entry(k1, v1), Entry(k2, v2)];
    OrderedDictShape(d);
  }

  /** A list of two items canonicalises when each item does and their
      canonical forms can be compared. */
  lemma {:induction false} OrderedPair(x: Node, y: Node)
    requires Ordered(x).Ok? && Ordered(y).Ok?
    requires Comparable(Ordered(x).value, Ordered(y).value) && Comparable(Ordered(y).value, Ordered(x).value)
    ensures Ordered(List([x, y])).Ok?
  {
    var cs := OrderedItems([x, y]).value;
    assert cs[0] == Ordered(x).value && cs[1] == Ordered(y).value;
    OrderedListShape([x, y]);
  }

  /** The canonical forms of two nonempty dictionaries with no key in
      common can be compared: their first tuples differ in the key. */
  lemma {:induction false} DisjointDictsComparable(d: seq<Entry>, e: seq<Entry>)
    requires DistinctKeys(d) && DistinctKeys(e) && |d| > 0 && |e| > 0
    requires Ordered(Dict(d)).Ok? && Ordered(Dict(e)).Ok?
    requires forall i, j :: 0 <= i < |d| && 0 <= j < |e| ==> d[i].key != e[j].key
    ensures Comparable(Ordered(Dict(d)).value, Ordered(Dict(e)).value)
    ensures Comparable(Ordered(Dict(e)).value, Ordered(Dict(d)).value)
  {
    OrderedDictKeys(d);
    OrderedDictKeys(e);
    var ps, qs := Ordered(Dict(d)).value.items, Ordered(Dict(e)).value.items;
    assert ps[0].CPair? && qs[0].CPair?;
    var i :| 0 <= i < |d| && ps[0].key == d[i].key;
    var j :| 0 <= j < |e| && qs[0].key == e[j].key;
    assert !CEq(ps[0], qs[0]) && !CEq(qs[0], ps[0]);
    assert FirstDiff(ps, qs) == 0 && FirstDiff(qs, ps) == 0;
  }

  lemma {:induction false} WellFormedItems(x: Node, y: Node)
    requires WellFormed(x) && WellFormed(y)
    ensures WellFormed(List([x, y]))
  {
  }

  lemma ABWellFormed()
    ensures WellFormed(RecordA()) && WellFormed(RecordB())
  {
    WellFormedTwo("foo", Str("bar"), "john", Str("doe"));
    WellFormedTwo("john", Str("doe"), "foo", Str("bar"));
    WellFormedOne("abc", Str("def"));
    WellFormedItems(DictObj2(), DictObj());
    WellFormedItems(ReorderedDictObj(), DictObj2());
    WellFormedOne("X", List([DictObj2(), DictObj()]));
    WellFormedOne("X", List([ReorderedDictObj(), DictObj2()]));
    WellFormedOne("Y", Int(2));
    WellFormedItems(XLeft(), YTwo());
    WellFormedItems(YTwo(), XRight());
    WellFormedTwo("A", List([XLeft(), YTwo()]), "B", DictObj2());
    WellFormedTwo("B", DictObj2(), "A", List([YTwo(), XRight()]));
    WellFormedTwo("L", Str("M"), "N", DictWithListsInValue());
    WellFormedTwo("L", Str("M"), "N", ReorderedDictWithReorderedListsInValue());
  }

  // The lemmas below name the fixture's parts through parameters, so that
  // the verifier does not evaluate `Ordered` on the whole literal at once.

  lemma {:induction false} InnerListOrdered(d2: Node, d: Node)
    requires d2 == DictObj2() && d == DictObj()
    ensures Ordered(List([d2, d])).Ok?
  {
    OrderedTwo("foo", Str("bar"), "john", Str("doe"));
    OrderedOne("abc", Str("def"));
    DisjointDictsComparable(d2.entries, d.entries);
    OrderedPair(d2, d);
  }

  lemma {:induction false} OuterListOrdered(x: Node, y: Node)
    requires x == XLeft() && y == YTwo()
    ensures Ordered(List([x, y])).Ok?
  {
    var inner := List([DictObj2(), DictObj()]);
    InnerListOrdered(DictObj2(), DictObj());
    OrderedOne("X", inner);
    OrderedOne("Y", Int(2));
    DisjointDictsComparable(x.entries, y.entries);
    OrderedPair(x, y);
  }

  lemma {:induction false} RecordOrdered(r: Node, n: Node, outer: Node, d2: Node)
    requires outer == List([XLeft(), YTwo()]) && d2 == DictObj2()
    requires n == Dict([Entry("A", outer), Entry("B", d2)]) && r == Dict([Entry("L", Str("M")), Entry("N", n)])
    ensures Ordered(r).Ok?
  {
    OuterListOrdered(XLeft(), YTwo());
    OrderedOne("abc", Str("def"));
    OrderedTwo("A", outer, "B", d2);
    OrderedTwo("L", Str("M"), "N", n);
  }

  lemma AOrdered()
    ensures Ordered(RecordA()).Ok?
  {
    RecordOrdered(RecordA(), DictWithListsInValue(), List([XLeft(), YTwo()]), DictObj2());
  }

  lemma {:induction false} AB(ev: Eval)
    ensures RecordCompare(RecordA(), RecordB(), ev)
  {
    ABWellFormed();
    ABRearranged();
    AOrdered();
    RecordCompareRearranged(RecordA(), RecordB(), ev);
  }

  // ---------------------------------------------------------------------
  // The same pair under the fallback

  /** Two items matched crosswise. */
  lemma {:induction false} SwappedItemsCmp(xs: seq<Node>, ys: seq<Node>, ev: Eval)
    requires |xs| == 2 && |ys| == 2 && NoRaise(xs, ys, ev)
    requires ObjCmp(xs[0], ys[1], ev) == Ok(true) && ObjCmp(xs[1], ys[0], ev) == Ok(true)
    ensures ObjCmp(List(xs), List(ys), ev) == Ok(true)
  {
    ListCmpMatches(xs, ys, ev);
  }

  /** `[a, b]` against `[b', a]`, all three dictionaries of scalars and
      `b'` equal to `b`. */
  lemma {:induction false} ScalarDictsCrossed(a: Node, b: Node, b': Node, ev: Eval)
    requires NeverRaises(ev)
    requires a.Dict? && b.Dict? && ScalarEntries(a.entries) && ScalarEntries(b.entries)
    requires WellFormed(a) && WellFormed(b) && WellFormed(b') && PyEq(b, b')
    ensures ObjCmp(List([a, b]), List([b', a]), ev) == Ok(true)
  {
    var xs, ys := [a, b], [b', a];
    forall i, j | 0 <= i < 2 && 0 <= j < 2 ensures ObjCmp(xs[i], ys[j], ev).Ok? {
      ScalarDictNeverRaises(xs[i].entries, ys[j], ev);
    }
    PyEqReflexive(a);
    ScalarDictAccepts(a.entries, a, ev);
    ScalarDictAccepts(b.entries, b', ev);
    SwappedItemsCmp(xs, ys, ev);
  }

  /** `[x, y]` against `[y, x']`, where `y` is a dictionary of scalars and
      `x` is accepted against `x'` and does not raise against `y`. */
  lemma {:induction false} ScalarDictCrossed(x: Node, y: Node, x': Node, ev: Eval)
    requires NeverRaises(ev)
    requires y.Dict? && ScalarEntries(y.entries) && WellFormed(y)
    requires ObjCmp(x, y, ev).Ok? && ObjCmp(x, x', ev) == Ok(true)
    ensures ObjCmp(List([x, y]), List([y, x']), ev) == Ok(true)
  {
    var xs, ys := [x, y], [y, x'];
    ScalarDictNeverRaises(y.entries, x', ev);
    PyEqReflexive(y);
    ScalarDictAccepts(y.entries, y, ev);
    SwappedItemsCmp(xs, ys, ev);
  }

  lemma DictObjsScalar()
    ensures DictObj2().Dict? && ScalarEntries(DictObj2().entries) && WellFormed(DictObj2())
    ensures DictObj().Dict? && ScalarEntries(DictObj().entries) && WellFormed(DictObj())
    ensures WellFormed(ReorderedDictObj())
  {
  }

  lemma DictObjPyEq()
    ensures PyEq(DictObj(), ReorderedDictObj())
  {
    var e := ReorderedDictObj().entries;
    assert Get(e, "foo") == Str("bar") && Get(e, "john") == Str("doe");
    assert e[1].key == "foo" && e[0].key == "john";
  }

  lemma {:induction false} InnerListsCmp(ev: Eval)
    requires NeverRaises(ev)
    ensures ObjCmp(List([DictObj2(), DictObj()]), List([ReorderedDictObj(), DictObj2()]), ev) == Ok(true)
  {
    DictObjsScalar();
    DictObjPyEq();
    ScalarDictsCrossed(DictObj2(), DictObj(), ReorderedDictObj(), ev);
  }

  lemma {:induction false} XCmp(ev: Eval)
    requires NeverRaises(ev)
    ensures ObjCmp(XLeft(), XRight(), ev) == Ok(true)
  {
    InnerListsCmp(ev);
    var xs, ys := [DictObj2(), DictObj()], [ReorderedDictObj(), DictObj2()];
    assert ValueCmp(List(xs), List(ys), ev) == ObjCmp(List(xs), List(ys), ev);
    DictCmpAcceptsAt(XLeft().entries, XRight().entries, [0], ev);
  }

  lemma {:induction false} XLeftYTwo(ev: Eval)
    ensures ObjCmp(XLeft(), YTwo(), ev) == Ok(false)
  {
    var d, e := XLeft().entries, YTwo().entries;
    assert d[0].key in KeySet(d) && d[0].key !in KeySet(e);
  }

  lemma YTwoScalar()
    ensures YTwo().Dict? && ScalarEntries(YTwo().entries) && WellFormed(YTwo())
  {
  }

  lemma {:induction false} OuterListsCmp(ev: Eval)
    requires NeverRaises(ev)
    ensures ObjCmp(List([XLeft(), YTwo()]), List([YTwo(), XRight()]), ev) == Ok(true)
  {
    XCmp(ev);
    XLeftYTwo(ev);
    YTwoScalar();
    ScalarDictCrossed(XLeft(), YTwo(), XRight(), ev);
  }

  /** With no escaping `eval` exception the fallback accepts the pair as
      well. */
  lemma {:induction false} ListsInValueCmp(ev: Eval)
    requires NeverRaises(ev)
    ensures ObjCmp(DictWithListsInValue(), ReorderedDictWithReorderedListsInValue(), ev) == Ok(true)
  {
    OuterListsCmp(ev);
    DictObjsScalar();
    PyEqReflexive(DictObj2());
    ScalarDictAccepts(DictObj2().entries, DictObj2(), ev);
    var xs, ys := [XLeft(), YTwo()], [YTwo(), XRight()];
    assert ValueCmp(List(xs), List(ys), ev) == ObjCmp(List(xs), List(ys), ev);
    DictCmpAcceptsAt(DictWithListsInValue().entries, ReorderedDictWithReorderedListsInValue().entries, [1, 0], ev);
  }

  lemma {:induction false} ABFallback(ev: Eval)
    requires NeverRaises(ev)
    ensures ObjCmp(RecordA(), RecordB(), ev) == Ok(true)
  {
    ListsInValueCmp(ev);
    assert ValueCmp(Str("M"), Str("M"), ev) == Ok(true);
    DictCmpAcceptsAt(RecordA().entries, RecordB().entries, [0, 1], ev);
  }
}
