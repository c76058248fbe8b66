/**
  The canonicaliser `ordered`: a dictionary becomes the sorted list of its
  `(key, ordered(value))` tuples, a list becomes the sorted list of its
  items' canonical forms, and a scalar comes back unchanged. `sorted`
  raises TypeError when it meets two items `<` cannot compare.
 */
module Canonicalise {
  import opened Wrappers
  import opened Nodes
  import opened Seqs
  import opened CanonicalOrder
  import opened Sorting

  /** A canonical form: every list in it is sorted. */
  predicate Normal(c: Canon) {
    match c
    case CList(xs) => Sorted(xs) && forall i :: 0 <= i < |xs| ==> Normal(xs[i])
    case CPair(_, v) => Normal(v)
    case _ => true
  }

  /** `sorted(cs)`, or the TypeError it raises. Only whether some pair of
      items is incomparable is modelled, not which comparisons the sort
      happens to perform. */
  function SortOrRaise(cs: seq<Canon>): Result<Canon, Fault> {
    if AllComparable(cs) then Ok(CList(Sort(cs))) else Err(Unorderable)
  }

  function Ordered(n: Node): (r: Result<Canon, Fault>)
    ensures r.Ok? ==> Normal(r.value)
    ensures r.Ok? ==> !r.value.CPair?
  {
    match n
    case Null => Ok(CNull)
    case Bool(b) => Ok(CBool(b))
    case Int(i) => Ok(CInt(i))
    case Str(s) => Ok(CStr(s))
    case List(xs) =>
      var cs :- OrderedItems(xs);
      NormalSort(cs);
      SortOrRaise(cs)
    case Dict(d) =>
      var ps :- OrderedEntries(d);
      NormalSort(ps);
      SortOrRaise(ps)
  }

  /** The canonical forms of a list's items, in list order. */
  function OrderedItems(xs: seq<Node>): (r: Result<seq<Canon>, Fault>)
    ensures r.Ok? <==> forall i :: 0 <= i < |xs| ==> Ordered(xs[i]).Ok?
    ensures r.Ok? ==> |r.value| == |xs|
    ensures r.Ok? ==> forall i :: 0 <= i < |xs| ==> r.value[i] == Ordered(xs[i]).value && Normal(r.value[i])
  {
    if |xs| == 0 then Ok([])
    else
      var c :- Ordered(xs[0]);
      var cs :- OrderedItems(xs[1..]);
      Ok([c] + cs)
  }

  /** The `(key, ordered(value))` tuples of a dictionary, in entry order. */
  function OrderedEntries(d: seq<Entry>): (r: Result<seq<Canon>, Fault>)
    ensures r.Ok? <==> forall i :: 0 <= i < |d| ==> Ordered(d[i].value).Ok?
    ensures r.Ok? ==> |r.value| == |d|
    ensures r.Ok? ==> forall i :: 0 <= i < |d| ==> r.value[i] == CPair(d[i].key, Ordered(d[i].value).value) && Normal(r.value[i])
  {
    if |d| == 0 then Ok([])
    else
      var c :- Ordered(d[0].value);
      var cs :- OrderedEntries(d[1..]);
      Ok([CPair(d[0].key, c)] + cs)
  }

  lemma {:induction false} NormalSort(cs: seq<Canon>)
    requires forall i :: 0 <= i < |cs| ==> Normal(cs[i])
    ensures AllComparable(cs) ==> Normal(CList(Sort(cs)))
  {
    if AllComparable(cs) {
      SortSorted(cs);
      var s := Sort(cs);
      forall i | 0 <= i < |s| ensures Normal(s[i]) {
        assert s[i] in multiset(cs);
      }
    }
  }

  /** Two outcomes of `ordered` agree: both raise, or both return values
      that are `==`. */
  predicate Agree(r: Result<Canon, Fault>, s: Result<Canon, Fault>) {
    (r.Ok? <==> s.Ok?) && (r.Ok? ==> CEq(r.value, s.value))
  }

  lemma {:induction false} SortOrRaiseAgree(cs: seq<Canon>, ds: seq<Canon>)
    requires PermEquiv(cs, ds)
    ensures Agree(SortOrRaise(cs), SortOrRaise(ds))
  {
    PermEquivComparable(cs, ds);
    if AllComparable(cs) {
      SortPermEquiv(cs, ds);
    }
  }

  lemma {:induction false} OrderedItemsRemoveOk(ys: seq<Node>, k: nat)
    requires k < |ys|
    ensures OrderedItems(ys).Ok? <==> Ordered(ys[k]).Ok? && OrderedItems(RemoveAt(ys, k)).Ok?
    decreases k
  {
    var ys' := RemoveAt(ys, k);
    if k == 0 {
      assert ys' == ys[1..];
    } else {
      OrderedItemsRemoveOk(ys[1..], k - 1);
      RemoveCons(ys, k);
    }
  }

  /** Taking item `k` out of a list takes its canonical form out of the
      list's canonical items. */
  lemma {:induction false} OrderedItemsRemove(ys: seq<Node>, k: nat)
    requires k < |ys|
    ensures OrderedItems(ys).Ok? <==> Ordered(ys[k]).Ok? && OrderedItems(RemoveAt(ys, k)).Ok?
    ensures OrderedItems(ys).Ok? ==> OrderedItems(ys).value[k] == Ordered(ys[k]).value
    ensures OrderedItems(ys).Ok? ==> OrderedItems(RemoveAt(ys, k)).value == RemoveAt(OrderedItems(ys).value, k)
  {
    OrderedItemsRemoveOk(ys, k);
    if OrderedItems(ys).Ok? {
      OrderedItemsRemoveValue(ys, k);
    }
  }

  /** Taking position `k` out of `xs` takes it out of the values `f`
      gives the items too. */
  lemma {:induction false} RemoveMapped<A, B, E>(f: A -> Result<B, E>, xs: seq<A>, xs': seq<A>, v: seq<B>, v': seq<B>, k: nat)
    requires k < |xs| == |v| && |xs'| == |v'| == |xs| - 1
    requires xs' == xs[..k] + xs[k + 1..]
    requires forall i :: 0 <= i < |xs| ==> f(xs[i]).Ok? && v[i] == f(xs[i]).value
    requires forall i :: 0 <= i < |xs'| ==> f(xs'[i]).Ok? && v'[i] == f(xs'[i]).value
    ensures v' == v[..k] + v[k + 1..]
  {
    forall i | 0 <= i < |v'| ensures v'[i] == (v[..k] + v[k + 1..])[i] {
      if i < k {
        assert xs'[i] == xs[i];
      } else {
        assert xs'[i] == xs[i + 1];
      }
    }
  }

  lemma {:induction false} OrderedItemsRemoveValue(ys: seq<Node>, k: nat)
    requires k < |ys| && OrderedItems(ys).Ok? && OrderedItems(RemoveAt(ys, k)).Ok?
    ensures OrderedItems(RemoveAt(ys, k)).value == RemoveAt(OrderedItems(ys).value, k)
  {
    RemoveMapped(n => Ordered(n), ys, RemoveAt(ys, k), OrderedItems(ys).value, OrderedItems(RemoveAt(ys, k)).value, k);
  }

  /** The tuple `OrderedEntries` makes of one entry. */
  function OrderedEntry(en: Entry): Result<Canon, Fault> {
    var c :- Ordered(en.value);
    Ok(CPair(en.key, c))
  }

  lemma {:induction false} OrderedEntriesRemoveValue(e: seq<Entry>, k: nat)
    requires k < |e| && OrderedEntries(e).Ok? && OrderedEntries(RemoveAt(e, k)).Ok?
    ensures OrderedEntries(RemoveAt(e, k)).value == RemoveAt(OrderedEntries(e).value, k)
  {
    RemoveMapped(OrderedEntry, e, RemoveAt(e, k), OrderedEntries(e).value, OrderedEntries(RemoveAt(e, k)).value, k);
  }

  lemma {:induction false} OrderedEntriesRemoveOk(e: seq<Entry>, k: nat)
    requires k < |e|
    ensures OrderedEntries(e).Ok? <==> Ordered(e[k].value).Ok? && OrderedEntries(RemoveAt(e, k)).Ok?
    decreases k
  {
    var e' := RemoveAt(e, k);
    if k == 0 {
      assert e' == e[1..];
    } else {
      OrderedEntriesRemoveOk(e[1..], k - 1);
      RemoveCons(e, k);
    }
  }

  lemma {:induction false} OrderedEntriesRemove(e: seq<Entry>, k: nat)
    requires k < |e|
    ensures OrderedEntries(e).Ok? <==> Ordered(e[k].value).Ok? && OrderedEntries(RemoveAt(e, k)).Ok?
    ensures OrderedEntries(e).Ok? ==> OrderedEntries(e).value[k] == CPair(e[k].key, Ordered(e[k].value).value)
    ensures OrderedEntries(e).Ok? ==> OrderedEntries(RemoveAt(e, k)).value == RemoveAt(OrderedEntries(e).value, k)
  {
    OrderedEntriesRemoveOk(e, k);
    if OrderedEntries(e).Ok? {
      OrderedEntriesRemoveValue(e, k);
    }
  }

  /** Removing the entry of another key from `e` leaves the lookup of
      `k` unchanged. */
  lemma {:induction false} RemoveEntryGet(e: seq<Entry>, p: nat, k: string)
    requires DistinctKeys(e) && p < |e| && e[p].key != k && HasKey(e, k)
    ensures HasKey(RemoveAt(e, p), k) && Get(RemoveAt(e, p), k) == Get(e, k)
  {
    var e' := RemoveAt(e, p);
    DistinctRemove(e, p);
    var q :| 0 <= q < |e| && e[q].key == k;
    var q' := if q < p then q else q - 1;
    assert e'[q'] == e[q];
  }

  /** Matching the first key of `d` in `e` leaves the other keys matched. */
  lemma {:induction false} EntriesRearrangedTail(d: seq<Entry>, e: seq<Entry>, p: nat)
    requires DistinctKeys(d) && DistinctKeys(e) && EntriesRearranged(d, e)
    requires 0 < |d| && p < |e| && e[p].key == d[0].key
    ensures Rearranged(d[0].value, e[p].value)
    ensures DistinctKeys(RemoveAt(e, p))
    ensures EntriesRearranged(d[1..], RemoveAt(e, p))
  {
    var e' := RemoveAt(e, p);
    forall i | 0 <= i < |d| - 1
      ensures HasKey(e', d[1..][i].key) && Rearranged(d[1..][i].value, Get(e', d[1..][i].key))
    {
      assert d[1..][i] == d[i + 1];
      RemoveEntryGet(e, p, d[i + 1].key);
    }
  }

  /** One step of `OrderedItemsRearranged`: the head goes to position `k`. */
  lemma {:induction false} ItemsStep(xs: seq<Node>, ys: seq<Node>, k: nat)
    requires |xs| > 0 && k < |ys|
    requires Agree(Ordered(xs[0]), Ordered(ys[k]))
    requires OrderedItems(xs[1..]).Ok? <==> OrderedItems(RemoveAt(ys, k)).Ok?
    requires OrderedItems(xs[1..]).Ok? ==> PermEquiv(OrderedItems(xs[1..]).value, OrderedItems(RemoveAt(ys, k)).value)
    ensures OrderedItems(xs).Ok? <==> OrderedItems(ys).Ok?
    ensures OrderedItems(xs).Ok? ==> PermEquiv(OrderedItems(xs).value, OrderedItems(ys).value)
  {
    OrderedItemsRemove(ys, k);
    if OrderedItems(xs).Ok? {
      var vx, vy := OrderedItems(xs).value, OrderedItems(ys).value;
      PermEquivCons(vx, vy, k, OrderedItems(xs[1..]).value, OrderedItems(RemoveAt(ys, k)).value);
    }
  }

  /** The canonical items of a list and of a rearrangement of it are both
      available or both not, and are rearrangements of each other up to
      `==`. */
  lemma {:induction false} OrderedItemsRearranged(xs: seq<Node>, ys: seq<Node>)
    requires forall i :: 0 <= i < |xs| ==> WellFormed(xs[i])
    requires forall i :: 0 <= i < |ys| ==> WellFormed(ys[i])
    requires ItemsRearranged(xs, ys)
    ensures OrderedItems(xs).Ok? <==> OrderedItems(ys).Ok?
    ensures OrderedItems(xs).Ok? ==> PermEquiv(OrderedItems(xs).value, OrderedItems(ys).value)
    decreases xs
  {
    if |xs| > 0 {
      var k :| 0 <= k < |ys| && Rearranged(xs[0], ys[k]) && ItemsRearranged(xs[1..], RemoveAt(ys, k));
      ItemTailsWellFormed(xs, ys, k);
      OrderedRearranged(xs[0], ys[k]);
      OrderedItemsRearranged(xs[1..], RemoveAt(ys, k));
      ItemsStep(xs, ys, k);
    }
  }

  /** One step of `OrderedEntriesRearranged`: the first entry's key is at
      position `p`. */
  lemma {:induction false} EntriesStep(d: seq<Entry>, e: seq<Entry>, p: nat)
    requires |d| > 0 && p < |e| && e[p].key == d[0].key
    requires Agree(Ordered(d[0].value), Ordered(e[p].value))
    requires OrderedEntries(d[1..]).Ok? <==> OrderedEntries(RemoveAt(e, p)).Ok?
    requires OrderedEntries(d[1..]).Ok? ==> PermEquiv(OrderedEntries(d[1..]).value, OrderedEntries(RemoveAt(e, p)).value)
    ensures OrderedEntries(d).Ok? <==> OrderedEntries(e).Ok?
    ensures OrderedEntries(d).Ok? ==> PermEquiv(OrderedEntries(d).value, OrderedEntries(e).value)
  {
    OrderedEntriesRemove(e, p);
    if OrderedEntries(d).Ok? {
      var vd, ve := OrderedEntries(d).value, OrderedEntries(e).value;
      PermEquivCons(vd, ve, p, OrderedEntries(d[1..]).value, OrderedEntries(RemoveAt(e, p)).value);
    }
  }

  lemma {:induction false} OrderedEntriesRearranged(d: seq<Entry>, e: seq<Entry>)
    requires DistinctKeys(d) && forall i :: 0 <= i < |d| ==> WellFormed(d[i].value)
    requires DistinctKeys(e) && forall i :: 0 <= i < |e| ==> WellFormed(e[i].value)
    requires EntriesRearranged(d, e)
    ensures OrderedEntries(d).Ok? <==> OrderedEntries(e).Ok?
    ensures OrderedEntries(d).Ok? ==> PermEquiv(OrderedEntries(d).value, OrderedEntries(e).value)
    decreases d
  {
    if |d| > 0 {
      assert HasKey(e, d[0].key);
      var p :| 0 <= p < |e| && e[p].key == d[0].key;
      EntriesRearrangedTail(d, e, p);
      EntryTailsWellFormed(d, e, p);
      OrderedRearranged(d[0].value, e[p].value);
      OrderedEntriesRearranged(d[1..], RemoveAt(e, p));
      EntriesStep(d, e, p);
    }
  }

  /** Order independence: rearranging the items of lists and the entries of
      dictionaries, at any depth, changes neither whether `ordered` raises
      nor (up to `==`) what it returns. */
  lemma {:induction false} OrderedRearranged(a: Node, b: Node)
    requires WellFormed(a) && WellFormed(b) && Rearranged(a, b)
    ensures Agree(Ordered(a), Ordered(b))
    decreases a
  {
    match a
    case List(xs) =>
      OrderedItemsRearranged(xs, b.items);
      if OrderedItems(xs).Ok? {
        SortOrRaiseAgree(OrderedItems(xs).value, OrderedItems(b.items).value);
      }
    case Dict(d) =>
      OrderedEntriesRearranged(d, b.entries);
      if OrderedEntries(d).Ok? {
        SortOrRaiseAgree(OrderedEntries(d).value, OrderedEntries(b.entries).value);
      }
    case _ =>
  }

  /** Python-equal documents canonicalise alike. */
  lemma {:induction false} OrderedPyEq(a: Node, b: Node)
    requires WellFormed(a) && WellFormed(b) && PyEq(a, b)
    ensures Agree(Ordered(a), Ordered(b))
  {
    PyEqRearranged(a, b);
    OrderedRearranged(a, b);
  }

  /** Permuting the items of a list never changes its canonical form, up to
      `==`, nor whether canonicalising it raises. */
  lemma {:induction false} OrderedPermutation(xs: seq<Node>, ys: seq<Node>)
    requires forall i :: 0 <= i < |xs| ==> WellFormed(xs[i])
    requires multiset(xs) == multiset(ys)
    ensures Agree(Ordered(List(xs)), Ordered(List(ys)))
  {
    PermutationRearranged(xs, ys);
    forall i | 0 <= i < |ys| ensures WellFormed(ys[i]) {
      assert ys[i] in multiset(xs);
    }
    OrderedRearranged(List(xs), List(ys));
  }

  /** An empty dictionary and an empty list have the same canonical form. */
  lemma OrderedEmptyCollide()
    ensures Ordered(Dict([])) == Ordered(List([])) == Ok(CList([]))
  {
  }

  /** The canonical pairs of a dictionary's entries can always be sorted:
      its keys are distinct strings, and tuples with distinct first items
      are ordered by them. */
  lemma {:induction false} EntryPairsComparable(d: seq<Entry>)
    requires DistinctKeys(d) && OrderedEntries(d).Ok?
    ensures AllComparable(OrderedEntries(d).value)
  {
  }

  /** A count-one fact: a sequence of distinct items holds each at most once. */
  lemma {:induction false} DistinctCount(s: seq<Canon>, x: Canon)
    requires forall i, j :: 0 <= i < j < |s| ==> s[i] != s[j]
    ensures multiset(s)[x] <= 1
  {
    if |s| > 0 {
      DistinctCount(s[1..], x);
      assert s == [s[0]] + s[1..];
      if s[0] == x {
        assert x !in s[1..];
      }
    }
  }

  lemma {:induction false} PermutationDistinct(s: seq<Canon>, t: seq<Canon>)
    requires forall i, j :: 0 <= i < j < |s| ==> s[i] != s[j]
    requires multiset(s) == multiset(t)
    ensures forall i, j :: 0 <= i < j < |t| ==> t[i] != t[j]
  {
    forall i, j | 0 <= i < j < |t| ensures t[i] != t[j] {
      if t[i] == t[j] {
        assert t == t[..i] + [t[i]] + t[i + 1..j] + [t[j]] + t[j + 1..];
        assert multiset(t)[t[i]] >= 2;
        DistinctCount(s, t[i]);
        assert false;
      }
    }
  }

  /** Tuples whose first items are distinct strings. */
  predicate KeyedPairs(s: seq<Canon>) {
    (forall i :: 0 <= i < |s| ==> s[i].CPair?) &&
    forall i, j :: 0 <= i < j < |s| ==> s[i].key != s[j].key
  }

  lemma {:induction false} EntryPairsKeyed(d: seq<Entry>)
    requires DistinctKeys(d) && OrderedEntries(d).Ok?
    ensures KeyedPairs(OrderedEntries(d).value)
  {
  }

  lemma {:induction false} KeyedPairsPermutation(s: seq<Canon>, t: seq<Canon>)
    requires KeyedPairs(s) && multiset(s) == multiset(t)
    ensures KeyedPairs(t)
  {
    PermutationDistinct(s, t);
    forall i | 0 <= i < |t| ensures t[i].CPair? {
      assert t[i] in multiset(s);
    }
    forall i, j | 0 <= i < j < |t| ensures t[i].key != t[j].key {
      assert t[i] in multiset(s) && t[j] in multiset(s);
      var a :| 0 <= a < |s| && s[a] == t[i];
      var b :| 0 <= b < |s| && s[b] == t[j];
    }
  }

  /** An ascending list of keyed pairs has strictly ascending keys. */
  lemma {:induction false} KeyedPairsAscending(ps: seq<Canon>)
    requires KeyedPairs(ps) && Sorted(ps)
    ensures forall i, j :: 0 <= i < j < |ps| ==> StrLt(ps[i].key, ps[j].key)
  {
    forall i, j | 0 <= i < j < |ps| ensures StrLt(ps[i].key, ps[j].key) {
      assert Le(ps[i], ps[j]);
      StrLtTotal(ps[i].key, ps[j].key);
    }
  }

  /** The canonical form of a dictionary: it raises exactly when some value
      cannot be canonicalised, and otherwise lists each entry as the tuple
      `(key, canonical value)`, in strictly ascending key order. */
  lemma {:induction false} OrderedDictShape(d: seq<Entry>)
    requires DistinctKeys(d)
    ensures Ordered(Dict(d)).Ok? <==> forall i :: 0 <= i < |d| ==> Ordered(d[i].value).Ok?
    ensures Ordered(Dict(d)).Ok? ==>
      Ordered(Dict(d)).value.CList? &&
      multiset(Ordered(Dict(d)).value.items) == multiset(OrderedEntries(d).value)
    ensures Ordered(Dict(d)).Ok? ==>
      var ps := Ordered(Dict(d)).value.items;
      forall i, j :: 0 <= i < j < |ps| ==> ps[i].CPair? && ps[j].CPair? && StrLt(ps[i].key, ps[j].key)
  {
    if OrderedEntries(d).Ok? {
      var es := OrderedEntries(d).value;
      EntryPairsComparable(d);
      EntryPairsKeyed(d);
      SortSorted(es);
      KeyedPairsPermutation(es, Sort(es));
      KeyedPairsAscending(Sort(es));
    }
  }

  /** The canonical form of a dictionary has one tuple per entry, each
      carrying a key of the dictionary. */
  lemma {:induction false} OrderedDictKeys(d: seq<Entry>)
    requires DistinctKeys(d) && Ordered(Dict(d)).Ok?
    ensures Ordered(Dict(d)).value.CList? && |Ordered(Dict(d)).value.items| == |d|
    ensures var ps := Ordered(Dict(d)).value.items;
      forall k :: 0 <= k < |ps| ==> ps[k].CPair? && exists i :: 0 <= i < |d| && ps[k].key == d[i].key
  {
    OrderedDictShape(d);
    var ps, es := Ordered(Dict(d)).value.items, OrderedEntries(d).value;
    assert |ps| == |es| by {
      assert |multiset(ps)| == |multiset(es)|;
    }
    forall k | 0 <= k < |ps| ensures ps[k].CPair? && exists i :: 0 <= i < |d| && ps[k].key == d[i].key {
      assert ps[k] in multiset(es);
      var i :| 0 <= i < |es| && es[i] == ps[k];
      assert ps[k].key == d[i].key;
    }
  }

  /** A list that canonicalises becomes its sorted canonical items. */
  lemma {:induction false} OrderedListSorts(xs: seq<Node>)
    requires Ordered(List(xs)).Ok?
    ensures OrderedItems(xs).Ok? && Ordered(List(xs)).value == CList(Sort(OrderedItems(xs).value))
  {
  }

  /** A dictionary that canonicalises becomes its sorted entry tuples. */
  lemma {:induction false} OrderedDictSorts(d: seq<Entry>)
    requires Ordered(Dict(d)).Ok?
    ensures OrderedEntries(d).Ok? && Ordered(Dict(d)).value == CList(Sort(OrderedEntries(d).value))
  {
  }

  /** The canonical form of a list: it raises exactly when some item cannot
      be canonicalised or two items' canonical forms cannot be compared,
      and otherwise is an ascending arrangement of those forms. */
  lemma {:induction false} OrderedListShape(xs: seq<Node>)
    ensures Ordered(List(xs)).Ok? <==> OrderedItems(xs).Ok? && AllComparable(OrderedItems(xs).value)
    ensures Ordered(List(xs)).Ok? ==>
      Ordered(List(xs)).value.CList? &&
      Sorted(Ordered(List(xs)).value.items) &&
      multiset(Ordered(List(xs)).value.items) == multiset(OrderedItems(xs).value)
  {
    if Ordered(List(xs)).Ok? {
      SortSorted(OrderedItems(xs).value);
    }
  }

  /** Python's `ordered` applied to a value it has already produced: a list
      is canonicalised item by item and sorted again; a tuple is neither a
      list nor a dict, so it comes back unchanged. */
  function ReOrdered(c: Canon): (r: Result<Canon, Fault>)
    ensures Normal(c) ==> r == Ok(c)
  {
    match c
    case CList(xs) =>
      var cs :- ReOrderedItems(xs);
      SortedOfNormal(xs, cs);
      SortOrRaise(cs)
    case _ => Ok(c)
  }

  function ReOrderedItems(xs: seq<Canon>): (r: Result<seq<Canon>, Fault>)
    ensures (forall i :: 0 <= i < |xs| ==> Normal(xs[i])) ==> r == Ok(xs)
  {
    if |xs| == 0 then Ok([])
    else
      var c :- ReOrdered(xs[0]);
      var cs :- ReOrderedItems(xs[1..]);
      assert xs == [xs[0]] + xs[1..];
      Ok([c] + cs)
  }

  lemma {:induction false} SortedOfNormal(xs: seq<Canon>, cs: seq<Canon>)
    requires Normal(CList(xs)) ==> cs == xs
    ensures Normal(CList(xs)) ==> SortOrRaise(cs) == Ok(CList(xs))
  {
    if Normal(CList(xs)) {
      SortedComparable(xs);
      SortOfSorted(xs);
    }
  }

  /** Idempotence: canonicalising a canonical form gives it back unchanged. */
  lemma {:induction false} OrderedIdempotent(n: Node)
    requires Ordered(n).Ok?
    ensures ReOrdered(Ordered(n).value) == Ordered(n)
  {
  }
  // ---------------------------------------------------------------------
  // Dictionaries of strings, the shape of most stored result rows

  /** A dictionary whose values are all strings. */
  predicate StrEntries(d: seq<Entry>) {
    DistinctKeys(d) && forall i :: 0 <= i < |d| ==> d[i].value.Str?
  }

  /** Tuples `(key, string)`, the canonical entries of such a dictionary. */
  predicate StrPairs(ps: seq<Canon>) {
    forall i :: 0 <= i < |ps| ==> ps[i].CPair? && ps[i].val.CStr?
  }

  /** A dictionary of strings always canonicalises, to a list of
      `(key, string)` tuples. */
  lemma {:induction false} StrEntriesOrdered(d: seq<Entry>)
    requires StrEntries(d)
    ensures Ordered(Dict(d)).Ok? && Ordered(Dict(d)).value.CList?
    ensures StrPairs(Ordered(Dict(d)).value.items)
  {
    assert forall i :: 0 <= i < |d| ==> Ordered(d[i].value) == Ok(CStr(d[i].value.s));
    OrderedDictShape(d);
    var ps, es := Ordered(Dict(d)).value.items, OrderedEntries(d).value;
    assert StrPairs(es);
    forall k | 0 <= k < |ps| ensures ps[k].CPair? && ps[k].val.CStr? {
      assert ps[k] in multiset(es);
      var j :| 0 <= j < |es| && es[j] == ps[k];
    }
  }

  /** Two lists of `(key, string)` tuples can always be ordered: tuples
      compare by key first, and strings compare with strings. */
  lemma {:induction false} StrPairsComparable(ps: seq<Canon>, qs: seq<Canon>)
    requires StrPairs(ps) && StrPairs(qs)
    ensures Comparable(CList(ps), CList(qs))
  {
    var i := FirstDiff(ps, qs);
    if i < |ps| && i < |qs| {
      assert Comparable(ps[i], qs[i]);
    }
  }

  /** A list of string dictionaries always canonicalises. */
  lemma {:induction false} StrDictsItems(xs: seq<Node>)
    requires forall i :: 0 <= i < |xs| ==> xs[i].Dict? && StrEntries(xs[i].entries)
    ensures OrderedItems(xs).Ok?
    ensures forall i :: 0 <= i < |xs| ==> OrderedItems(xs).value[i].CList? && StrPairs(OrderedItems(xs).value[i].items)
  {
    forall i | 0 <= i < |xs| ensures Ordered(xs[i]).Ok? && Ordered(xs[i]).value.CList? && StrPairs(Ordered(xs[i]).value.items) {
      StrEntriesOrdered(xs[i].entries);
    }
  }

  lemma {:induction false} StrDictsOrdered(xs: seq<Node>)
    requires forall i :: 0 <= i < |xs| ==> xs[i].Dict? && StrEntries(xs[i].entries)
    ensures Ordered(List(xs)).Ok?
  {
    StrDictsItems(xs);
    var cs := OrderedItems(xs).value;
    forall i, j | 0 <= i < |cs| && 0 <= j < |cs| && i != j ensures Comparable(cs[i], cs[j]) {
      StrPairsComparable(cs[i].items, cs[j].items);
    }
    assert AllComparable(cs);
  }
}
