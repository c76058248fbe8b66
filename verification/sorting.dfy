/**
  Python's `sorted` on canonical values, modelled as a stable insertion
  sort driven by `<`. It is only run on sequences whose items are pairwise
  comparable; canonicalisation reports a TypeError otherwise.
 */
module Sorting {
  import opened Wrappers
  import opened CanonicalOrder
  import opened Seqs

  /** Every two items at distinct positions can be compared by `<`. */
  predicate AllComparable(s: seq<Canon>) {
    forall i, j {:trigger Comparable(s[i], s[j])} :: 0 <= i < |s| && 0 <= j < |s| && i != j ==> Comparable(s[i], s[j])
  }

  predicate ComparableWith(x: Canon, s: seq<Canon>) {
    forall i :: 0 <= i < |s| ==> Comparable(x, s[i])
  }

  /** Ascending: no item is less than an item before it. */
  predicate Sorted(s: seq<Canon>) {
    forall i, j {:trigger Le(s[i], s[j])} :: 0 <= i < j < |s| ==> Le(s[i], s[j])
  }

  /** Stable insertion: `x` goes before the first item that is not less
      than it, so it precedes the items equal to it. */
  function Insert(x: Canon, s: seq<Canon>): (r: seq<Canon>)
    ensures |r| == |s| + 1
    ensures multiset(r) == multiset(s) + multiset{x}
  {
    if |s| == 0 then [x]
    else if Lt(s[0], x) == Some(true) then
      assert s == [s[0]] + s[1..];
      [s[0]] + Insert(x, s[1..])
    else [x] + s
  }

  function Sort(s: seq<Canon>): (r: seq<Canon>)
    ensures |r| == |s|
    ensures multiset(r) == multiset(s)
  {
    if |s| == 0 then []
    else
      assert s == [s[0]] + s[1..];
      Insert(s[0], Sort(s[1..]))
  }

  // ---------------------------------------------------------------------
  // Comparability bookkeeping

  lemma {:induction false} ComparableWithPermutation(x: Canon, s: seq<Canon>, t: seq<Canon>)
    requires multiset(s) == multiset(t)
    requires ComparableWith(x, s)
    ensures ComparableWith(x, t)
  {
    forall i | 0 <= i < |t| ensures Comparable(x, t[i]) {
      assert t[i] in multiset(s);
      var j :| 0 <= j < |s| && s[j] == t[i];
    }
  }

  /** Pairwise comparability of the rest and of the item at `k` with it
      gives pairwise comparability of the whole. */
  lemma {:induction false} AllComparableInsertAt(t: seq<Canon>, k: nat)
    requires k < |t| && AllComparable(RemoveAt(t, k)) && ComparableWith(t[k], RemoveAt(t, k))
    ensures AllComparable(t)
  {
    var r := RemoveAt(t, k);
    forall i, j | 0 <= i < |t| && 0 <= j < |t| && i != j ensures Comparable(t[i], t[j]) {
      var i' := if i < k then i else i - 1;
      var j' := if j < k then j else j - 1;
      if i == k {
        assert t[j] == r[j'];
        assert Comparable(t[k], r[j']);
      } else if j == k {
        assert t[i] == r[i'];
        assert Comparable(t[k], r[i']);
        ComparableSymmetric(t[k], t[i]);
      } else {
        assert t[i] == r[i'] && t[j] == r[j'];
        assert Comparable(r[i'], r[j']);
      }
    }
  }

  /** Pairwise comparability of the whole gives it for the rest and for
      the item at `k` with the rest. */
  lemma {:induction false} AllComparableRemoveAtOf(t: seq<Canon>, k: nat)
    requires k < |t| && AllComparable(t)
    ensures AllComparable(RemoveAt(t, k)) && ComparableWith(t[k], RemoveAt(t, k))
  {
    var r := RemoveAt(t, k);
    forall i, j | 0 <= i < |r| && 0 <= j < |r| && i != j ensures Comparable(r[i], r[j]) {
      var i' := if i < k then i else i + 1;
      var j' := if j < k then j else j + 1;
      assert r[i] == t[i'] && r[j] == t[j'];
      assert Comparable(t[i'], t[j']);
    }
    forall i | 0 <= i < |r| ensures Comparable(t[k], r[i]) {
      var i' := if i < k then i else i + 1;
      assert r[i] == t[i'];
      assert Comparable(t[k], t[i']);
    }
  }

  /** Pairwise comparability splits into the item at `k` and the rest. */
  lemma {:induction false} AllComparableRemoveAt(t: seq<Canon>, k: nat)
    requires k < |t|
    ensures AllComparable(t) <==> AllComparable(RemoveAt(t, k)) && ComparableWith(t[k], RemoveAt(t, k))
  {
    if AllComparable(RemoveAt(t, k)) && ComparableWith(t[k], RemoveAt(t, k)) {
      AllComparableInsertAt(t, k);
    }
    if AllComparable(t) {
      AllComparableRemoveAtOf(t, k);
    }
  }

  lemma {:induction false} AllComparableTail(s: seq<Canon>)
    requires |s| > 0 && AllComparable(s)
    ensures AllComparable(s[1..]) && ComparableWith(s[0], s[1..])
  {
    AllComparableRemoveAt(s, 0);
    assert RemoveAt(s, 0) == s[1..];
  }

  /** A sorted sequence is pairwise comparable. */
  lemma {:induction false} SortedComparable(s: seq<Canon>)
    requires Sorted(s)
    ensures AllComparable(s)
  {
    forall i, j | 0 <= i < |s| && 0 <= j < |s| && i != j ensures Comparable(s[i], s[j]) {
      if j < i {
        assert Le(s[j], s[i]);
      } else {
        assert Le(s[i], s[j]);
        ComparableSymmetric(s[j], s[i]);
      }
    }
  }
  /** A list whose neighbours are in order is in order: a sort that has
      compared every neighbouring pair of its output without raising has
      met no incomparable pair at all. */
  lemma {:induction false} AdjacentLeComparable(s: seq<Canon>)
    requires forall i :: 0 <= i < |s| - 1 ==> Le(s[i], s[i + 1])
    ensures Sorted(s) && AllComparable(s)
    decreases |s|
  {
    if |s| > 1 {
      var t := s[1..];
      forall i | 0 <= i < |t| - 1 ensures Le(t[i], t[i + 1]) {
        assert t[i] == s[i + 1] && t[i + 1] == s[i + 2];
      }
      AdjacentLeComparable(t);
      forall i, j | 0 <= i < j < |s| ensures Le(s[i], s[j]) {
        if i > 0 {
          assert s[i] == t[i - 1] && s[j] == t[j - 1];
        } else if j > 1 {
          assert s[1] == t[0] && s[j] == t[j - 1];
          LeTransitive(s[0], s[1], s[j]);
        }
      }
    }
    SortedComparable(s);
  }


  // ---------------------------------------------------------------------
  // Sortedness

  /** Every item of `Insert(x, s)` is `x` or an item of `s`. */
  lemma {:induction false} InsertMember(x: Canon, s: seq<Canon>, j: nat)
    requires j < |Insert(x, s)|
    ensures Insert(x, s)[j] == x || exists p :: 0 <= p < |s| && s[p] == Insert(x, s)[j]
  {
    var e := Insert(x, s)[j];
    assert e in multiset(Insert(x, s));
    if e != x {
      assert e in multiset(s);
    }
  }

  lemma {:induction false} SortedAt(s: seq<Canon>, i: int, j: int)
    requires Sorted(s) && 0 <= i < j < |s|
    ensures Le(s[i], s[j])
  {
  }

  lemma {:induction false} SortedCons(y: Canon, s: seq<Canon>)
    requires Sorted(s)
    requires forall j :: 0 <= j < |s| ==> Le(y, s[j])
    ensures Sorted([y] + s)
  {
    var r := [y] + s;
    forall i, j | 0 <= i < j < |r| ensures Le(r[i], r[j]) {
      if i == 0 {
        assert r[j] == s[j - 1] && r[i] == y;
      } else {
        assert r[i] == s[i - 1] && r[j] == s[j - 1];
        SortedAt(s, i - 1, j - 1);
      }
    }
  }

  lemma {:induction false} InsertSorted(x: Canon, s: seq<Canon>)
    requires Sorted(s) && ComparableWith(x, s)
    ensures Sorted(Insert(x, s))
    decreases |s|
  {
    if |s| == 0 {
    } else if Lt(s[0], x) == Some(true) {
      var rest := Insert(x, s[1..]);
      InsertSorted(x, s[1..]);
      forall j | 0 <= j < |rest| ensures Le(s[0], rest[j]) {
        InsertMember(x, s[1..], j);
        if rest[j] == x {
          LtAsymmetric(s[0], x);
        } else {
          var p :| 0 <= p < |s[1..]| && s[1..][p] == rest[j];
          assert s[1 + p] == rest[j];
        }
      }
      SortedCons(s[0], rest);
    } else {
      ComparableSymmetric(x, s[0]);
      LeOfNotLt(x, s[0]);
      forall j | 0 <= j < |s| ensures Le(x, s[j]) {
        if j > 0 {
          LeTransitive(x, s[0], s[j]);
          ComparableSymmetric(x, s[j]);
          LeOfNotLt(x, s[j]);
        }
      }
      SortedCons(x, s);
    }
  }

  /** `sorted` returns an ascending arrangement of a pairwise comparable list. */
  lemma {:induction false} SortSorted(s: seq<Canon>)
    requires AllComparable(s)
    ensures Sorted(Sort(s))
  {
    if |s| > 0 {
      AllComparableTail(s);
      SortSorted(s[1..]);
      ComparableWithPermutation(s[0], s[1..], Sort(s[1..]));
      InsertSorted(s[0], Sort(s[1..]));
    }
  }

  /** Sorting an ascending sequence leaves it exactly as it is. */
  lemma {:induction false} SortOfSorted(s: seq<Canon>)
    requires Sorted(s)
    ensures Sort(s) == s
  {
    if |s| > 0 {
      SortOfSorted(s[1..]);
      if |s| > 1 {
        assert Le(s[0], s[1]);
      }
      assert [s[0]] + s[1..] == s;
    }
  }

  // ---------------------------------------------------------------------
  // Order independence, up to Python's `==`

  lemma {:induction false} SeqEqCons(a: Canon, b: Canon, xs: seq<Canon>, ys: seq<Canon>)
    requires CEq(a, b) && SeqEq(xs, ys)
    ensures SeqEq([a] + xs, [b] + ys)
  {
    var l, r := [a] + xs, [b] + ys;
    forall i | 0 <= i < |l| ensures CEq(l[i], r[i]) {
      if i > 0 {
        assert l[i] == xs[i - 1] && r[i] == ys[i - 1];
      }
    }
  }

  /** Inserting equal items into equal sequences gives equal sequences. */
  lemma {:induction false} InsertCongruent(x: Canon, x': Canon, s: seq<Canon>, s': seq<Canon>)
    requires CEq(x, x') && SeqEq(s, s')
    ensures SeqEq(Insert(x, s), Insert(x', s'))
    decreases |s|
  {
    if |s| == 0 {
      SeqEqCons(x, x', [], []);
    } else {
      LtCongruentLeft(s[0], s'[0], x);
      LtCongruentRight(s'[0], x, x');
      if Lt(s[0], x) == Some(true) {
        InsertCongruent(x, x', s[1..], s'[1..]);
        SeqEqCons(s[0], s'[0], Insert(x, s[1..]), Insert(x', s'[1..]));
      } else {
        SeqEqCons(x, x', s, s');
      }
    }
  }

  /** `[a, b] + s` and `[b, a] + s` are `==` when `a == b`. */
  lemma {:induction false} SwapEqual(a: Canon, b: Canon, s: seq<Canon>)
    requires CEq(a, b)
    ensures SeqEq([a, b] + s, [b, a] + s)
  {
    CEqSymmetric(a, b);
    SeqEqReflexive(s);
    SeqEqCons(b, a, s, s);
    SeqEqCons(a, b, [b] + s, [a] + s);
    assert [a] + ([b] + s) == [a, b] + s;
    assert [b] + ([a] + s) == [b, a] + s;
  }

  lemma {:induction false} InsertFront(x: Canon, s: seq<Canon>)
    requires |s| == 0 || Lt(s[0], x) != Some(true)
    ensures Insert(x, s) == [x] + s
  {
  }

  lemma {:induction false} InsertPast(x: Canon, y: Canon, s: seq<Canon>)
    requires Lt(y, x) == Some(true)
    ensures Insert(x, [y] + s) == [y] + Insert(x, s)
  {
    assert ([y] + s)[1..] == s;
  }

  /** `b < a`, and neither goes past the head of `s`. */
  lemma {:induction false} InsertCommuteOrdered(a: Canon, b: Canon, s: seq<Canon>)
    requires Lt(b, a) == Some(true)
    requires |s| == 0 || (Lt(s[0], a) != Some(true) && Lt(s[0], b) != Some(true))
    ensures Insert(a, Insert(b, s)) == Insert(b, Insert(a, s))
  {
    InsertFront(a, s);
    InsertFront(b, s);
    LtAsymmetric(b, a);
    InsertPast(a, b, s);
    InsertFront(b, [a] + s);
  }

  /** `b` stays in front of `s`, and `a` in front of `b`. */
  lemma {:induction false} InsertTwiceFront(a: Canon, b: Canon, s: seq<Canon>)
    requires Lt(b, a) != Some(true)
    requires |s| == 0 || Lt(s[0], b) != Some(true)
    ensures Insert(a, Insert(b, s)) == [a, b] + s
  {
    var t := [b] + s;
    InsertFront(b, s);
    assert t[0] == b;
    InsertFront(a, t);
    ConsTwo(a, b, s);
  }

  lemma {:induction false} ConsTwo<T>(a: T, b: T, s: seq<T>)
    ensures [a] + ([b] + s) == [a, b] + s
  {
    assert ([a] + ([b] + s))[1..] == [b] + s;
  }

  /** `a == b`, and neither goes past the head of `s`. */
  lemma {:induction false} InsertCommuteEqual(a: Canon, b: Canon, s: seq<Canon>)
    requires CEq(a, b)
    requires |s| == 0 || (Lt(s[0], a) != Some(true) && Lt(s[0], b) != Some(true))
    ensures SeqEq(Insert(a, Insert(b, s)), Insert(b, Insert(a, s)))
  {
    CEqSymmetric(a, b);
    LtIrreflexive(b, a);
    LtIrreflexive(a, b);
    InsertTwiceFront(a, b, s);
    InsertTwiceFront(b, a, s);
    SwapEqual(a, b, s);
  }

  /** Neither item goes past the head of `s`. */
  lemma {:induction false} InsertCommuteFront(a: Canon, b: Canon, s: seq<Canon>)
    requires Comparable(a, b)
    requires |s| == 0 || (Lt(s[0], a) != Some(true) && Lt(s[0], b) != Some(true))
    ensures SeqEq(Insert(a, Insert(b, s)), Insert(b, Insert(a, s)))
  {
    if Lt(b, a) == Some(true) {
      InsertCommuteOrdered(a, b, s);
      SeqEqReflexive(Insert(a, Insert(b, s)));
    } else if Lt(a, b) == Some(true) {
      InsertCommuteOrdered(b, a, s);
      SeqEqReflexive(Insert(a, Insert(b, s)));
    } else {
      ComparableSymmetric(a, b);
      LeOfNotLt(a, b);
      LtTotal(b, a);
      CEqSymmetric(b, a);
      InsertCommuteEqual(a, b, s);
    }
  }

  /** `b` stays in front of the head of `s`, which `a` goes past. */
  lemma {:induction false} InsertCommuteSplit(a: Canon, b: Canon, s: seq<Canon>)
    requires |s| > 0 && Lt(s[0], a) == Some(true) && Le(b, s[0])
    ensures Insert(a, Insert(b, s)) == Insert(b, Insert(a, s))
  {
    var y, t := s[0], Insert(a, s);
    LeLtTransitive(b, y, a);
    InsertFront(b, s);
    InsertPast(a, b, s);
    assert t[0] == y;
    assert Lt(t[0], b) == Some(false);
    InsertFront(b, t);
  }

  /** The order in which two items are inserted into a sorted sequence
      does not matter, up to `==`. */
  lemma {:induction false} InsertCommute(a: Canon, b: Canon, s: seq<Canon>)
    requires Sorted(s) && Comparable(a, b)
    requires ComparableWith(a, s) && ComparableWith(b, s)
    ensures SeqEq(Insert(a, Insert(b, s)), Insert(b, Insert(a, s)))
    decreases |s|
  {
    if |s| == 0 || (Lt(s[0], a) != Some(true) && Lt(s[0], b) != Some(true)) {
      InsertCommuteFront(a, b, s);
    } else {
      var y := s[0];
      ComparableSymmetric(a, y);
      ComparableSymmetric(b, y);
      if Lt(y, a) == Some(true) && Lt(y, b) == Some(true) {
        InsertCommute(a, b, s[1..]);
        var l, r := Insert(a, Insert(b, s[1..])), Insert(b, Insert(a, s[1..]));
        assert Insert(a, Insert(b, s)) == [y] + l;
        assert Insert(b, Insert(a, s)) == [y] + r;
        CEqReflexive(y);
        SeqEqCons(y, y, l, r);
      } else if Lt(y, a) == Some(true) {
        LeOfNotLt(b, y);
        InsertCommuteSplit(a, b, s);
        SeqEqReflexive(Insert(a, Insert(b, s)));
      } else {
        LeOfNotLt(a, y);
        InsertCommuteSplit(b, a, s);
        SeqEqReflexive(Insert(b, Insert(a, s)));
      }
    }
  }

  /** Sorting gives, up to `==`, what inserting any one item into the
      sorted rest gives. */
  lemma {:induction false} SortExtract(t: seq<Canon>, k: nat)
    requires k < |t| && AllComparable(t)
    ensures SeqEq(Sort(t), Insert(t[k], Sort(RemoveAt(t, k))))
    decreases k
  {
    if k == 0 {
      assert RemoveAt(t, 0) == t[1..];
      SeqEqReflexive(Sort(t));
    } else {
      var u := t[1..];
      var r' := RemoveAt(u, k - 1);
      assert u[k - 1] == t[k];
      assert [t[0]] + r' == RemoveAt(t, k);
      AllComparableTail(t);
      SortExtract(u, k - 1);
      // Sort(t) == Insert(t[0], Sort(u)) and Sort(u) is `==` to Insert(t[k], Sort(r')).
      CEqReflexive(t[0]);
      InsertCongruent(t[0], t[0], Sort(u), Insert(t[k], Sort(r')));
      // Swap the two insertions.
      AllComparableRemoveAt(t, k);
      AllComparableTail(RemoveAt(t, k));
      assert RemoveAt(t, k)[1..] == r';
      SortSorted(r');
      ComparableWithPermutation(t[0], r', Sort(r'));
      assert ComparableWith(t[k], r') by {
        forall i | 0 <= i < |r'| ensures Comparable(t[k], r'[i]) {
          assert r'[i] == RemoveAt(t, k)[i + 1];
        }
      }
      ComparableWithPermutation(t[k], r', Sort(r'));
      assert Comparable(t[0], t[k]);
      InsertCommute(t[0], t[k], Sort(r'));
      assert Insert(t[0], Sort(r')) == Sort(RemoveAt(t, k));
      SeqEqTransitive(Sort(t), Insert(t[0], Insert(t[k], Sort(r'))), Insert(t[k], Sort(RemoveAt(t, k))));
    }
  }

  /** `t` is a rearrangement of `s` up to Python's `==`: the head of `s`
      equals some item of `t`, and the rest of `s` is a rearrangement of
      what remains of `t`. */
  ghost predicate PermEquiv(s: seq<Canon>, t: seq<Canon>)
    decreases |s|
  {
    if |s| == 0 then |t| == 0
    else exists k :: 0 <= k < |t| && CEq(s[0], t[k]) && PermEquiv(s[1..], RemoveAt(t, k))
  }

  /** Every item of `t` equals some item of `s`. */
  ghost predicate Covers(s: seq<Canon>, t: seq<Canon>) {
    forall i :: 0 <= i < |t| ==> exists j :: 0 <= j < |s| && CEq(s[j], t[i])
  }

  lemma {:induction false} PermEquivOfPermutation(s: seq<Canon>, t: seq<Canon>)
    requires multiset(s) == multiset(t)
    ensures PermEquiv(s, t)
    decreases |s|
  {
    if |s| == 0 {
      assert |multiset(t)| == 0;
    } else {
      assert s[0] in multiset(t);
      var k :| 0 <= k < |t| && t[k] == s[0];
      MultisetRemove(t, k);
      assert RemoveAt(t, k) == t[..k] + t[k + 1..];
      assert s == [s[0]] + s[1..];
      assert multiset(s) == multiset{s[0]} + multiset(s[1..]);
      assert multiset(s[1..]) == multiset(s) - multiset{s[0]};
      assert multiset(RemoveAt(t, k)) == multiset(t) - multiset{t[k]};
      PermEquivOfPermutation(s[1..], RemoveAt(t, k));
      CEqReflexive(s[0]);
    }
  }

  lemma {:induction false} PermEquivOfPointwise(s: seq<Canon>, t: seq<Canon>)
    requires SeqEq(s, t)
    ensures PermEquiv(s, t)
    decreases |s|
  {
    if |s| > 0 {
      assert RemoveAt(t, 0) == t[1..];
      PermEquivOfPointwise(s[1..], t[1..]);
    }
  }

  /** Unfolds `PermEquiv` once, naming the position the head went to. */
  lemma {:induction false} PermEquivHead(s: seq<Canon>, t: seq<Canon>) returns (k: nat)
    requires |s| > 0 && PermEquiv(s, t)
    ensures k < |t| && CEq(s[0], t[k]) && PermEquiv(s[1..], RemoveAt(t, k))
  {
    k :| 0 <= k < |t| && CEq(s[0], t[k]) && PermEquiv(s[1..], RemoveAt(t, k));
  }

  /** Folds `PermEquiv` once, given the position the head goes to. */
  lemma {:induction false} PermEquivCons(s: seq<Canon>, t: seq<Canon>, k: nat, s': seq<Canon>, t': seq<Canon>)
    requires |s| > 0 && k < |t| && s' == s[1..] && t' == RemoveAt(t, k)
    requires CEq(s[0], t[k]) && PermEquiv(s', t')
    ensures PermEquiv(s, t)
  {
  }

  lemma {:induction false} PermEquivCoversRight(s: seq<Canon>, t: seq<Canon>)
    requires PermEquiv(s, t)
    ensures Covers(s, t)
    decreases |s|
  {
    if |s| > 0 {
      var k := PermEquivHead(s, t);
      var t' := RemoveAt(t, k);
      PermEquivCoversRight(s[1..], t');
      forall i | 0 <= i < |t| ensures exists j :: 0 <= j < |s| && CEq(s[j], t[i]) {
        if i == k {
          assert CEq(s[0], t[i]);
        } else {
          var i' := if i < k then i else i - 1;
          assert t'[i'] == t[i];
          var j' :| 0 <= j' < |s[1..]| && CEq(s[1..][j'], t'[i']);
          assert CEq(s[j' + 1], t[i]);
        }
      }
    }
  }

  /** An item equal to something in `RemoveAt(t, k)` is equal to
      something in `t`. */
  lemma {:induction false} CoveredInRemoveAt(t: seq<Canon>, k: nat, j': nat, x: Canon)
    requires k < |t| && j' < |t| - 1 && CEq(RemoveAt(t, k)[j'], x)
    ensures exists j :: 0 <= j < |t| && CEq(t[j], x)
  {
    var j := if j' < k then j' else j' + 1;
    assert t[j] == RemoveAt(t, k)[j'];
  }

  lemma {:induction false} PermEquivCoversLeft(s: seq<Canon>, t: seq<Canon>)
    requires PermEquiv(s, t)
    ensures Covers(t, s)
    decreases |s|
  {
    if |s| > 0 {
      var k := PermEquivHead(s, t);
      var t' := RemoveAt(t, k);
      PermEquivCoversLeft(s[1..], t');
      forall i | 0 <= i < |s| ensures exists j :: 0 <= j < |t| && CEq(t[j], s[i]) {
        if i == 0 {
          CEqSymmetric(s[0], t[k]);
        } else {
          assert s[1..][i - 1] == s[i];
          var j' :| 0 <= j' < |t'| && CEq(t'[j'], s[1..][i - 1]);
          CoveredInRemoveAt(t, k, j', s[i]);
        }
      }
    }
  }

  lemma {:induction false} ComparableWithCovers(x: Canon, s: seq<Canon>, t: seq<Canon>)
    requires Covers(s, t) && ComparableWith(x, s)
    ensures ComparableWith(x, t)
  {
    forall i | 0 <= i < |t| ensures Comparable(x, t[i]) {
      var j :| 0 <= j < |s| && CEq(s[j], t[i]);
      LtCongruentRight(x, s[j], t[i]);
    }
  }

  lemma {:induction false} ComparableWithCongruent(x: Canon, x': Canon, s: seq<Canon>)
    requires CEq(x, x') && ComparableWith(x, s)
    ensures ComparableWith(x', s)
  {
    forall i | 0 <= i < |s| ensures Comparable(x', s[i]) {
      LtCongruentLeft(x, x', s[i]);
    }
  }

  lemma {:induction false} PermEquivComparableForward(s: seq<Canon>, t: seq<Canon>)
    requires PermEquiv(s, t) && AllComparable(s)
    ensures AllComparable(t)
    decreases |s|
  {
    if |s| > 0 {
      var k := PermEquivHead(s, t);
      var t' := RemoveAt(t, k);
      AllComparableTail(s);
      PermEquivComparableForward(s[1..], t');
      PermEquivCoversRight(s[1..], t');
      ComparableWithCovers(s[0], s[1..], t');
      ComparableWithCongruent(s[0], t[k], t');
      AllComparableRemoveAt(t, k);
    }
  }

  lemma {:induction false} PermEquivComparableBackward(s: seq<Canon>, t: seq<Canon>)
    requires PermEquiv(s, t) && AllComparable(t)
    ensures AllComparable(s)
    decreases |s|
  {
    if |s| > 0 {
      var k := PermEquivHead(s, t);
      var t' := RemoveAt(t, k);
      AllComparableRemoveAt(t, k);
      PermEquivComparableBackward(s[1..], t');
      PermEquivCoversLeft(s[1..], t');
      ComparableWithCovers(t[k], t', s[1..]);
      CEqSymmetric(s[0], t[k]);
      ComparableWithCongruent(t[k], s[0], s[1..]);
      AllComparableRemoveAt(s, 0);
      assert RemoveAt(s, 0) == s[1..];
    }
  }

  /** Rearranging up to `==` never changes whether `sorted` raises. */
  lemma {:induction false} PermEquivComparable(s: seq<Canon>, t: seq<Canon>)
    requires PermEquiv(s, t)
    ensures AllComparable(s) <==> AllComparable(t)
  {
    if AllComparable(s) {
      PermEquivComparableForward(s, t);
    }
    if AllComparable(t) {
      PermEquivComparableBackward(s, t);
    }
  }

  /** Order independence: `sorted` gives `==` results on any two lists that
      are rearrangements of each other up to `==`. */
  lemma {:induction false} SortPermEquiv(s: seq<Canon>, t: seq<Canon>)
    requires PermEquiv(s, t) && AllComparable(s)
    ensures AllComparable(t)
    ensures SeqEq(Sort(s), Sort(t))
    decreases |s|
  {
    PermEquivComparable(s, t);
    if |s| > 0 {
      var k := PermEquivHead(s, t);
      var t' := RemoveAt(t, k);
      AllComparableTail(s);
      SortPermEquiv(s[1..], t');
      InsertCongruent(s[0], t[k], Sort(s[1..]), Sort(t'));
      SortExtract(t, k);
      SeqEqSymmetric(Sort(t), Insert(t[k], Sort(t')));
      SeqEqTransitive(Sort(s), Insert(t[k], Sort(t')), Sort(t));
    }
  }
}
