/**
  The document model: the JSON-like values the comparison engine receives
  (decoded `resultData` payloads), together with Python's `==` on them.
 */
module Nodes {
  import opened Seqs

  /** A decoded JSON-like value. A dictionary keeps its entries in insertion
      order; Python dictionaries never repeat a key (see `WellFormed`). */
  datatype Node =
    | Null
    | Bool(b: bool)
    | Int(i: int)
    | Str(s: string)
    | List(items: seq<Node>)
    | Dict(entries: seq<Entry>)

  /** One `key: value` entry of a dictionary. */
  datatype Entry = Entry(key: string, value: Node)

  /** The exceptions the engine can raise, reduced to what the comparison
      reacts to. */
  datatype Fault =
    | Unorderable   // `sorted` met two values that `<` cannot compare (TypeError)
    | NoLength      // `__len__` called on None, a bool or an int (AttributeError)
    | EvalFault     // `eval` raised something other than SyntaxError or NameError

  predicate DistinctKeys(d: seq<Entry>) {
    forall i, j :: 0 <= i < j < |d| ==> d[i].key != d[j].key
  }

  /** Every dictionary in the tree has distinct keys, as Python guarantees. */
  predicate WellFormed(n: Node) {
    match n
    case List(xs) => forall i :: 0 <= i < |xs| ==> WellFormed(xs[i])
    case Dict(d) => DistinctKeys(d) && forall i :: 0 <= i < |d| ==> WellFormed(d[i].value)
    case _ => true
  }

  function KeySet(d: seq<Entry>): set<string> {
    set i | 0 <= i < |d| :: d[i].key
  }

  predicate HasKey(d: seq<Entry>, k: string) {
    exists i :: 0 <= i < |d| && d[i].key == k
  }

  /** Python's `dict.get(k)`: the value stored under `k`, or None. */
  function Get(d: seq<Entry>, k: string): (v: Node)
    ensures !HasKey(d, k) ==> v == Null
    ensures DistinctKeys(d) ==> forall i :: 0 <= i < |d| && d[i].key == k ==> v == d[i].value
  {
    if |d| == 0 then Null
    else if d[0].key == k then d[0].value
    else Get(d[1..], k)
  }

  /** In Python `bool` is a subclass of `int`: `True == 1` and `False == 0`. */
  predicate IsNumber(n: Node) {
    n.Bool? || n.Int?
  }

  function NumVal(n: Node): int
    requires IsNumber(n)
  {
    if n.Bool? then (if n.b then 1 else 0) else n.i
  }

  /** Python's `==` on two documents. Lists compare element by element;
      dictionaries compare by size and then look every key of the left one
      up in the right one, so entry order does not matter. */
  predicate PyEq(a: Node, b: Node) {
    match a
    case Null => b.Null?
    case Str(s) => b.Str? && b.s == s
    case List(xs) =>
      b.List? && |xs| == |b.items| &&
      forall i :: 0 <= i < |xs| ==> PyEq(xs[i], b.items[i])
    case Dict(d) =>
      b.Dict? && |d| == |b.entries| &&
      forall i :: 0 <= i < |d| ==> HasKey(b.entries, d[i].key) && PyEq(d[i].value, Get(b.entries, d[i].key))
    case _ => IsNumber(b) && NumVal(a) == NumVal(b)
  }

  /** Python's `==` is reflexive on documents. */
  lemma {:induction false} PyEqReflexive(n: Node)
    requires WellFormed(n)
    ensures PyEq(n, n)
  {
    match n
    case List(xs) =>
      forall i | 0 <= i < |xs| ensures PyEq(xs[i], xs[i]) {
        PyEqReflexive(xs[i]);
      }
    case Dict(d) =>
      forall i | 0 <= i < |d| ensures HasKey(d, d[i].key) && PyEq(d[i].value, Get(d, d[i].key)) {
        PyEqReflexive(d[i].value);
      }
    case _ =>
  }

  lemma {:induction false} DistinctRemove(e: seq<Entry>, p: nat)
    requires DistinctKeys(e) && p < |e|
    ensures DistinctKeys(RemoveAt(e, p))
  {
    var e' := RemoveAt(e, p);
    forall i, j | 0 <= i < j < |e'| ensures e'[i].key != e'[j].key {
      assert e'[i] == e[if i < p then i else i + 1];
      assert e'[j] == e[if j < p then j else j + 1];
    }
  }

  /** What the recursion over two lists needs of their tails. */
  lemma {:induction false} ItemTailsWellFormed(xs: seq<Node>, ys: seq<Node>, k: nat)
    requires |xs| > 0 && k < |ys|
    requires forall i :: 0 <= i < |xs| ==> WellFormed(xs[i])
    requires forall i :: 0 <= i < |ys| ==> WellFormed(ys[i])
    ensures forall i :: 0 <= i < |xs[1..]| ==> WellFormed(xs[1..][i])
    ensures forall i :: 0 <= i < |RemoveAt(ys, k)| ==> WellFormed(RemoveAt(ys, k)[i])
  {
  }

  /** What the recursion over two dictionaries needs of their tails. */
  lemma {:induction false} EntryTailsWellFormed(d: seq<Entry>, e: seq<Entry>, p: nat)
    requires |d| > 0 && p < |e|
    requires DistinctKeys(d) && forall i :: 0 <= i < |d| ==> WellFormed(d[i].value)
    requires DistinctKeys(e) && forall i :: 0 <= i < |e| ==> WellFormed(e[i].value)
    ensures DistinctKeys(d[1..]) && forall i :: 0 <= i < |d[1..]| ==> WellFormed(d[1..][i].value)
    ensures DistinctKeys(RemoveAt(e, p)) && forall i :: 0 <= i < |RemoveAt(e, p)| ==> WellFormed(RemoveAt(e, p)[i].value)
  {
    DistinctRemove(e, p);
  }

  /** `b` is `a` with the items of its lists and the entries of its
      dictionaries rearranged, at any depth; scalars must be `==`. */
  ghost predicate Rearranged(a: Node, b: Node)
    decreases a
  {
    match a
    case List(xs) => b.List? && ItemsRearranged(xs, b.items)
    case Dict(d) => b.Dict? && EntriesRearranged(d, b.entries)
    case _ => PyEq(a, b)
  }

  /** Some item of `ys` is a rearrangement of the head of `xs`, and the rest
      of `xs` is item by item a rearrangement of what remains of `ys`. */
  ghost predicate ItemsRearranged(xs: seq<Node>, ys: seq<Node>)
    decreases xs
  {
    if |xs| == 0 then |ys| == 0
    else exists k :: 0 <= k < |ys| && Rearranged(xs[0], ys[k]) && ItemsRearranged(xs[1..], RemoveAt(ys, k))
  }

  /** Same size, and each key of `d` is in `e` with a rearranged value. */
  ghost predicate EntriesRearranged(d: seq<Entry>, e: seq<Entry>)
    decreases d
  {
    |d| == |e| &&
    forall i :: 0 <= i < |d| ==> HasKey(e, d[i].key) && Rearranged(d[i].value, Get(e, d[i].key))
  }

  lemma {:induction false} ItemsRearrangedPointwise(xs: seq<Node>, ys: seq<Node>)
    requires |xs| == |ys|
    requires forall i :: 0 <= i < |xs| ==> Rearranged(xs[i], ys[i])
    ensures ItemsRearranged(xs, ys)
    decreases |xs|
  {
    if |xs| > 0 {
      assert RemoveAt(ys, 0) == ys[1..];
      ItemsRearrangedPointwise(xs[1..], ys[1..]);
    }
  }

  /** Python-equal documents are rearrangements of each other. */
  lemma {:induction false} PyEqRearranged(a: Node, b: Node)
    requires PyEq(a, b)
    ensures Rearranged(a, b)
    decreases a
  {
    match a
    case List(xs) =>
      forall i | 0 <= i < |xs| ensures Rearranged(xs[i], b.items[i]) {
        PyEqRearranged(xs[i], b.items[i]);
      }
      ItemsRearrangedPointwise(xs, b.items);
    case Dict(d) =>
      forall i | 0 <= i < |d| ensures Rearranged(d[i].value, Get(b.entries, d[i].key)) {
        PyEqRearranged(d[i].value, Get(b.entries, d[i].key));
      }
    case _ =>
  }

  /** Any permutation of a list's items is a rearrangement of it. */
  lemma {:induction false} PermutationRearranged(xs: seq<Node>, ys: seq<Node>)
    requires multiset(xs) == multiset(ys)
    requires forall i :: 0 <= i < |xs| ==> WellFormed(xs[i])
    ensures ItemsRearranged(xs, ys)
    decreases |xs|
  {
    if |xs| == 0 {
      assert |multiset(ys)| == 0;
    } else {
      var k := IndexOf(xs[0], ys);
      var ys' := RemoveAt(ys, k);
      assert ys' == ys[..k] + ys[k + 1..];
      MultisetRemove(ys, k);
      MultisetTail(xs);
      assert multiset(xs[1..]) == multiset(ys');
      PermutationRearranged(xs[1..], ys');
      PyEqReflexive(xs[0]);
      PyEqRearranged(xs[0], xs[0]);
    }
  }

  lemma {:induction false} KeySetCons(d: seq<Entry>)
    requires |d| > 0
    ensures KeySet(d) == {d[0].key} + KeySet(d[1..])
  {
    forall k | k in KeySet(d[1..]) ensures k in KeySet(d) {
      var i :| 0 <= i < |d[1..]| && d[1..][i].key == k;
      assert d[i + 1].key == k;
    }
    forall k | k in KeySet(d) && k != d[0].key ensures k in KeySet(d[1..]) {
      var i :| 0 <= i < |d| && d[i].key == k;
      assert d[1..][i - 1].key == k;
    }
  }

  lemma {:induction false} KeySetSize(d: seq<Entry>)
    ensures |KeySet(d)| <= |d|
    ensures DistinctKeys(d) ==> |KeySet(d)| == |d|
  {
    if |d| == 0 {
      assert KeySet(d) == {};
    } else {
      var t := KeySet(d[1..]);
      KeySetSize(d[1..]);
      KeySetCons(d);
      if DistinctKeys(d) {
        forall i | 0 <= i < |d[1..]| ensures d[1..][i].key != d[0].key {
          assert d[1..][i] == d[i + 1];
        }
      }
    }
  }

  /** Two dictionaries of the same size, the keys of the first all found
      in the second, have the same key set. */
  lemma {:induction false} SameKeys(d: seq<Entry>, e: seq<Entry>)
    requires DistinctKeys(d) && |d| == |e|
    requires forall i :: 0 <= i < |d| ==> HasKey(e, d[i].key)
    ensures KeySet(d) == KeySet(e)
  {
    KeySetSize(d);
    KeySetSize(e);
    var a, b := KeySet(d), KeySet(e);
    assert a <= b;
    assert |b - a| + |a| == |b| by {
      assert b == (b - a) + a;
    }
  }

  /** The key set of a two-entry dictionary. */
  lemma {:induction false} KeySetTwo(d: seq<Entry>)
    requires |d| == 2
    ensures KeySet(d) == {d[0].key, d[1].key}
  {
    assert d[0].key in KeySet(d);
    assert d[1].key in KeySet(d);
  }

  /** The lookups in a two-entry dictionary. */
  lemma {:induction false} GetPair(e: seq<Entry>)
    requires |e| == 2 && e[0].key != e[1].key
    ensures Get(e, e[0].key) == e[0].value && Get(e, e[1].key) == e[1].value
    ensures KeySet(e) == {e[0].key, e[1].key}
  {
    KeySetTwo(e);
    assert e[1..][0] == e[1];
  }

  /** Dictionaries whose entries `p` matches up key by key, with
      rearranged values, are rearrangements of each other. */
  lemma {:induction false} EntriesRearrangedAt(d: seq<Entry>, e: seq<Entry>, p: seq<nat>)
    requires DistinctKeys(e) && |d| == |e| == |p|
    requires forall i :: 0 <= i < |d| ==> p[i] < |e| && e[p[i]].key == d[i].key && Rearranged(d[i].value, e[p[i]].value)
    ensures Rearranged(Dict(d), Dict(e))
  {
    forall i | 0 <= i < |d| ensures HasKey(e, d[i].key) && Rearranged(d[i].value, Get(e, d[i].key)) {
      assert e[p[i]].key == d[i].key;
    }
  }
}
