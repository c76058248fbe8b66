/**
  Consequences of `recordCompare` that its callers may not expect: the
  fallback matches items without using each one once, None in a list
  hands the verdict to the fallback, and an exception inside the fallback
  rejects records that are rearrangements of each other.
 */
module Quirks {
  import opened Wrappers
  import opened Nodes
  import opened CanonicalOrder
  import opened Sorting
  import opened Canonicalise
  import opened Fallback
  import opened Compare

  /** Lists of scalars: every item comparison is plain `==`. */
  lemma {:induction false} ScalarItemsNoRaise(xs: seq<Node>, ys: seq<Node>, ev: Eval)
    requires forall i :: 0 <= i < |xs| ==> !xs[i].List? && !xs[i].Dict?
    ensures NoRaise(xs, ys, ev)
  {
  }

  lemma {:induction false} DuplicateMatchesTwice(a: int, b: int, ev: Eval)
    ensures ObjCmp(List([Int(a), Int(a), Int(b)]), List([Int(a), Int(b), Int(b)]), ev) == Ok(true)
  {
    var xs, ys := [Int(a), Int(a), Int(b)], [Int(a), Int(b), Int(b)];
    ScalarItemsNoRaise(xs, ys, ev);
    ListCmpMatches(xs, ys, ev);
    assert ObjCmp(xs[0], ys[0], ev) == Ok(true);
    assert ObjCmp(xs[1], ys[0], ev) == Ok(true);
    assert ObjCmp(xs[2], ys[1], ev) == Ok(true);
  }

  lemma {:induction false} UnmatchedRightItem(a: int, b: int, c: int, ev: Eval)
    ensures ObjCmp(List([Int(a), Int(a), Int(b)]), List([Int(a), Int(b), Int(c)]), ev) == Ok(true)
  {
    var xs, zs := [Int(a), Int(a), Int(b)], [Int(a), Int(b), Int(c)];
    ScalarItemsNoRaise(xs, zs, ev);
    ListCmpMatches(xs, zs, ev);
    assert ObjCmp(xs[0], zs[0], ev) == Ok(true);
    assert ObjCmp(xs[1], zs[0], ev) == Ok(true);
    assert ObjCmp(xs[2], zs[1], ev) == Ok(true);
  }

  lemma {:induction false} UnmatchedLeftItem(a: int, b: int, c: int, ev: Eval)
    requires c != a && c != b
    ensures ObjCmp(List([Int(a), Int(b), Int(c)]), List([Int(a), Int(a), Int(b)]), ev) == Ok(false)
  {
    var xs, zs := [Int(a), Int(a), Int(b)], [Int(a), Int(b), Int(c)];
    ScalarItemsNoRaise(zs, xs, ev);
    ListCmpMatches(zs, xs, ev);
    assert ObjCmp(zs[2], xs[0], ev) == Ok(false);
    assert ObjCmp(zs[2], xs[1], ev) == Ok(false);
    assert ObjCmp(zs[2], xs[2], ev) == Ok(false);
    assert !Matched(zs, xs, ev);
  }

  /** A list holding None and anything else cannot be sorted. */
  lemma {:induction false} NoneUnorderable(xs: seq<Node>, i: nat)
    requires |xs| >= 2 && i < |xs| && xs[i] == Null
    ensures Ordered(List(xs)).Err?
  {
    var cs := OrderedItems(xs);
    if cs.Ok? {
      var j := if i == 0 then 1 else 0;
      assert cs.value[i] == CNull;
      assert !Comparable(cs.value[i], cs.value[j]);
    }
  }

  /** When the preliminary `==` fails and one side cannot be
      canonicalised, the verdict is the fallback's `True`. */
  lemma {:induction false} FallbackDecides(r1: Node, r2: Node, ev: Eval)
    requires !PyEq(r1, r2) && (Ordered(r1).Err? || Ordered(r2).Err?)
    ensures RecordCompare(r1, r2, ev) <==> ObjCmp(r1, r2, ev) == Ok(true)
  {
  }

  lemma {:induction false} NoneFirstMatched(a: int, b: int, c: int, ev: Eval)
    ensures ObjCmp(List([Null, Int(a), Int(a), Int(b)]), List([Null, Int(a), Int(b), Int(c)]), ev) == Ok(true)
  {
    var xs, zs := [Null, Int(a), Int(a), Int(b)], [Null, Int(a), Int(b), Int(c)];
    ScalarItemsNoRaise(xs, zs, ev);
    ListCmpMatches(xs, zs, ev);
    assert ObjCmp(xs[0], zs[0], ev) == Ok(true);
    assert ObjCmp(xs[1], zs[1], ev) == Ok(true);
    assert ObjCmp(xs[2], zs[1], ev) == Ok(true);
    assert ObjCmp(xs[3], zs[2], ev) == Ok(true);
  }

  lemma {:induction false} NoneFirstUnmatched(a: int, b: int, c: int, ev: Eval)
    requires c != a && c != b
    ensures ObjCmp(List([Null, Int(a), Int(b), Int(c)]), List([Null, Int(a), Int(a), Int(b)]), ev) == Ok(false)
  {
    var xs, zs := [Null, Int(a), Int(a), Int(b)], [Null, Int(a), Int(b), Int(c)];
    ScalarItemsNoRaise(zs, xs, ev);
    ListCmpMatches(zs, xs, ev);
    assert ObjCmp(zs[3], xs[0], ev) == Ok(false);
    assert ObjCmp(zs[3], xs[1], ev) == Ok(false);
    assert ObjCmp(zs[3], xs[2], ev) == Ok(false);
    assert ObjCmp(zs[3], xs[3], ev) == Ok(false);
    assert !Matched(zs, xs, ev);
  }

  /** With None in the lists, the fallback accepts `[None, a, a, b]`
      against `[None, a, b, c]`, which is no rearrangement of it. */
  lemma {:induction false} RecordsAcceptNonRearrangement(a: int, b: int, c: int, ev: Eval)
    requires a != b && c != a && c != b
    ensures RecordCompare(List([Null, Int(a), Int(a), Int(b)]), List([Null, Int(a), Int(b), Int(c)]), ev)
  {
    var xs, zs := [Null, Int(a), Int(a), Int(b)], [Null, Int(a), Int(b), Int(c)];
    assert !PyEq(List(xs), List(zs)) by {
      assert !PyEq(xs[2], zs[2]);
    }
    NoneUnorderable(xs, 0);
    FallbackDecides(List(xs), List(zs), ev);
    NoneFirstMatched(a, b, c, ev);
  }

  /** ... and rejects the same two lists the other way round. */
  lemma {:induction false} RecordsRejectReversed(a: int, b: int, c: int, ev: Eval)
    requires a != b && c != a && c != b
    ensures !RecordCompare(List([Null, Int(a), Int(b), Int(c)]), List([Null, Int(a), Int(a), Int(b)]), ev)
  {
    var xs, zs := [Null, Int(a), Int(a), Int(b)], [Null, Int(a), Int(b), Int(c)];
    assert !PyEq(List(zs), List(xs)) by {
      assert !PyEq(zs[2], xs[2]);
    }
    NoneUnorderable(zs, 0);
    FallbackDecides(List(zs), List(xs), ev);
    NoneFirstUnmatched(a, b, c, ev);
  }

  /** A list value against a number: `my_list_cmp` takes the length of
      the number, which raises. */
  lemma {:induction false} ListAgainstNumber(k: string, xs: seq<Node>, n: int, ev: Eval)
    ensures !PyEq(Dict([Entry(k, List(xs))]), Dict([Entry(k, Int(n))]))
    ensures ObjCmp(Dict([Entry(k, List(xs))]), Dict([Entry(k, Int(n))]), ev) == Err(NoLength)
  {
    var d, e := [Entry(k, List(xs))], [Entry(k, Int(n))];
    assert Get(e, d[0].key) == Int(n);
    assert !PyEq(d[0].value, Get(e, d[0].key));
    assert KeySet(d) == {k} == KeySet(e) by {
      assert d[0].key == k && e[0].key == k;
    }
    assert ValueCmp(d[0].value, Get(e, d[0].key), ev) == Err(NoLength);
  }

  /** The fallback on `[p, None, q]` against `[q, None, p]` compares `p`
      with `q` first, so an exception there escapes. */
  lemma {:induction false} RaiseEscapes(p: Node, q: Node, ev: Eval)
    requires ObjCmp(p, q, ev).Err?
    ensures ObjCmp(List([p, Null, q]), List([q, Null, p]), ev).Err?
  {
    var l, r := [p, Null, q], [q, Null, p];
    assert Found(l[0], r, ev).Err?;
    assert AllFound(l, r, ev).Err?;
  }

  lemma {:induction false} SwapEnds<T>(a: T, b: T, c: T)
    ensures multiset([a, b, c]) == multiset([c, b, a])
  {
  }

  /** An exception inside the fallback ends the search: when comparing
      `p` with `q` raises, the list `[p, None, q]` is rejected against its
      own rearrangement `[q, None, p]`. */
  lemma {:induction false} RaiseAbortsSearch(p: Node, q: Node, ev: Eval)
    requires !PyEq(p, q) && ObjCmp(p, q, ev).Err?
    ensures multiset([p, Null, q]) == multiset([q, Null, p])
    ensures !RecordCompare(List([p, Null, q]), List([q, Null, p]), ev)
  {
    var l, r := [p, Null, q], [q, Null, p];
    SwapEnds(p, Null, q);
    assert !PyEq(List(l), List(r)) by {
      assert !PyEq(l[0], r[0]);
    }
    NoneUnorderable(l, 1);
    RaiseEscapes(p, q, ev);
    FallbackDecides(List(l), List(r), ev);
  }

  /** For instance a list value on the left where the right holds a
      number. */
  lemma {:induction false} ListAgainstNumberAborts(x: Node, n: int, ev: Eval)
    ensures !RecordCompare(
      List([Dict([Entry("k", List([x]))]), Null, Dict([Entry("k", Int(n))])]),
      List([Dict([Entry("k", Int(n))]), Null, Dict([Entry("k", List([x]))])]), ev)
  {
    ListAgainstNumber("k", [x], n, ev);
    RaiseAbortsSearch(Dict([Entry("k", List([x]))]), Dict([Entry("k", Int(n))]), ev);
  }
}
