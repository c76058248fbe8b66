/**
  `recordCompare`: Python's `==` first; if that fails, the canonical forms
  of both records are compared with `==`; if canonicalising either record
  raises TypeError, the structural fallback decides. The `finally: return
  res` clause swallows any exception the fallback raises, and `res` then
  still holds the False of the first comparison.
 */
module Compare {
  import opened Wrappers
  import opened Nodes
  import opened CanonicalOrder
  import opened Sorting
  import opened Canonicalise
  import opened Fallback

  function RecordCompare(r1: Node, r2: Node, ev: Eval): bool {
    if PyEq(r1, r2) then true
    else
      var c1 := Ordered(r1);
      var c2 := Ordered(r2);
      if c1.Ok? && c2.Ok? then CEq(c1.value, c2.value)
      else ObjCmp(r1, r2, ev) == Ok(true)
  }

  /** A record always matches itself. */
  lemma {:induction false} RecordCompareReflexive(r: Node, ev: Eval)
    requires WellFormed(r)
    ensures RecordCompare(r, r, ev)
  {
    PyEqReflexive(r);
  }

  /** When both records canonicalise, the verdict is exactly whether the
      canonical forms are `==`; the preliminary `==` test never disagrees
      with it. */
  lemma {:induction false} RecordCompareCanonical(r1: Node, r2: Node, ev: Eval)
    requires WellFormed(r1) && WellFormed(r2)
    requires Ordered(r1).Ok? && Ordered(r2).Ok?
    ensures RecordCompare(r1, r2, ev) == CEq(Ordered(r1).value, Ordered(r2).value)
  {
    if PyEq(r1, r2) {
      OrderedPyEq(r1, r2);
    }
  }

  /** When both records canonicalise the verdict is symmetric. */
  lemma {:induction false} RecordCompareSymmetric(r1: Node, r2: Node, ev: Eval)
    requires WellFormed(r1) && WellFormed(r2)
    requires Ordered(r1).Ok? && Ordered(r2).Ok?
    ensures RecordCompare(r1, r2, ev) == RecordCompare(r2, r1, ev)
  {
    RecordCompareCanonical(r1, r2, ev);
    RecordCompareCanonical(r2, r1, ev);
    if CEq(Ordered(r1).value, Ordered(r2).value) {
      CEqSymmetric(Ordered(r1).value, Ordered(r2).value);
    }
    if CEq(Ordered(r2).value, Ordered(r1).value) {
      CEqSymmetric(Ordered(r2).value, Ordered(r1).value);
    }
  }

  /** Order independence: a record matches any rearrangement of its lists
      and dictionaries, at any depth, whenever it canonicalises. */
  lemma {:induction false} RecordCompareRearranged(r1: Node, r2: Node, ev: Eval)
    requires WellFormed(r1) && WellFormed(r2) && Rearranged(r1, r2)
    requires Ordered(r1).Ok?
    ensures RecordCompare(r1, r2, ev)
  {
    OrderedRearranged(r1, r2);
    RecordCompareCanonical(r1, r2, ev);
  }

  /** No canonical item of a list is a tuple, and every canonical item of
      a dictionary is one. */
  lemma {:induction false} SortedItemNotPair(xs: seq<Node>, i: nat)
    requires OrderedItems(xs).Ok? && i < |xs|
    ensures !Sort(OrderedItems(xs).value)[i].CPair?
  {
    var cs := OrderedItems(xs).value;
    assert Sort(cs)[i] in multiset(cs);
  }

  lemma {:induction false} SortedEntryIsPair(d: seq<Entry>, i: nat)
    requires OrderedEntries(d).Ok? && i < |d|
    ensures Sort(OrderedEntries(d).value)[i].CPair?
  {
    var ps := OrderedEntries(d).value;
    assert Sort(ps)[i] in multiset(ps);
  }

  /** Canonical lists of different lengths, or whose first items are a
      tuple on one side only, are not `==`. */
  lemma {:induction false} HeadsDiffer(u: seq<Canon>, v: seq<Canon>)
    requires |u| != |v| || (|u| > 0 && |v| > 0 && !u[0].CPair? && v[0].CPair?)
    ensures !CEq(CList(u), CList(v))
  {
    if |u| == |v| {
      assert !CEq(u[0], v[0]);
    }
  }

  /** A nonempty list and a dictionary, or a list and a nonempty
      dictionary, never have `==` canonical forms. */
  lemma {:induction false} ListDictCanonDiffer(xs: seq<Node>, d: seq<Entry>)
    requires Ordered(List(xs)).Ok? && Ordered(Dict(d)).Ok? && (|xs| > 0 || |d| > 0)
    ensures !CEq(Ordered(List(xs)).value, Ordered(Dict(d)).value)
  {
    OrderedListSorts(xs);
    OrderedDictSorts(d);
    var cs, ps := OrderedItems(xs).value, OrderedEntries(d).value;
    if |xs| > 0 && |d| > 0 {
      SortedItemNotPair(xs, 0);
      SortedEntryIsPair(d, 0);
    }
    HeadsDiffer(Sort(cs), Sort(ps));
  }

  /** When both canonicalise, a list record matches a dictionary record
      exactly when both are empty: `{}` and `[]` have the same canonical
      form, and nothing else survives the mismatch of lists with tuples. */
  lemma {:induction false} RecordCompareListDict(xs: seq<Node>, d: seq<Entry>, ev: Eval)
    requires Ordered(List(xs)).Ok? && Ordered(Dict(d)).Ok?
    ensures RecordCompare(List(xs), Dict(d), ev) <==> |xs| == 0 && |d| == 0
  {
    if |xs| == 0 && |d| == 0 {
      OrderedEmptyCollide();
    } else {
      ListDictCanonDiffer(xs, d);
    }
  }
}
