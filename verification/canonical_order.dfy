/**
  The values produced by canonicalisation, and Python's `==` and `<` on them.

  Canonicalising a dictionary yields a Python list of `(key, value)` tuples,
  so the canonical domain has lists (`CList`) and two-element tuples
  (`CPair`) besides the scalars. Python's `<` is partial: comparing None
  with anything, or values of unrelated types (str with int, list with
  tuple), raises TypeError; `Lt` returns None there.
 */
module CanonicalOrder {
  import opened Wrappers

  datatype Canon =
    | CNull
    | CBool(b: bool)
    | CInt(i: int)
    | CStr(s: string)
    | CList(items: seq<Canon>)
    | CPair(key: string, val: Canon)

  predicate IsNum(c: Canon) {
    c.CBool? || c.CInt?
  }

  function Num(c: Canon): int
    requires IsNum(c)
  {
    if c.CBool? then (if c.b then 1 else 0) else c.i
  }

  /** Python's `==` on canonical values (a list never equals a tuple). */
  predicate CEq(a: Canon, b: Canon) {
    match a
    case CNull => b.CNull?
    case CStr(s) => b.CStr? && b.s == s
    case CList(xs) => b.CList? && SeqEq(xs, b.items)
    case CPair(k, v) => b.CPair? && b.key == k && CEq(v, b.val)
    case _ => IsNum(b) && Num(a) == Num(b)
  }

  /** Python's `==` on two lists: same length, equal element by element. */
  predicate SeqEq(xs: seq<Canon>, ys: seq<Canon>) {
    |xs| == |ys| && forall i :: 0 <= i < |xs| ==> CEq(xs[i], ys[i])
  }

  /** Python's `<` on strings: lexicographic on code points. */
  predicate StrLt(s: string, t: string)
    decreases |s|
  {
    if |t| == 0 then false
    else if |s| == 0 then true
    else if s[0] != t[0] then s[0] < t[0]
    else StrLt(s[1..], t[1..])
  }

  /** The first position at which two sequences hold unequal items, or the
      length of the shorter one when there is none. */
  function FirstDiff(xs: seq<Canon>, ys: seq<Canon>): (i: nat)
    ensures i <= |xs| && i <= |ys|
    ensures forall k :: 0 <= k < i ==> CEq(xs[k], ys[k])
    ensures i < |xs| && i < |ys| ==> !CEq(xs[i], ys[i])
  {
    if |xs| == 0 || |ys| == 0 then 0
    else if !CEq(xs[0], ys[0]) then 0
    else 1 + FirstDiff(xs[1..], ys[1..])
  }

  /** Python's `a < b`: Some(result), or None where Python raises TypeError.
      Lists and tuples compare at the first position whose items are not
      `==`, and by length when one is a prefix of the other. */
  function Lt(a: Canon, b: Canon): Option<bool>
    decreases a
  {
    match a
    case CNull => None
    case CStr(s) => if b.CStr? then Some(StrLt(s, b.s)) else None
    case CList(xs) =>
      if !b.CList? then None
      else
        var i := FirstDiff(xs, b.items);
        if i < |xs| && i < |b.items| then Lt(xs[i], b.items[i]) else Some(|xs| < |b.items|)
    case CPair(k, v) =>
      if !b.CPair? then None
      else if k != b.key then Some(StrLt(k, b.key))
      else if CEq(v, b.val) then Some(false)
      else Lt(v, b.val)
    case _ => if IsNum(b) then Some(Num(a) < Num(b)) else None
  }

  /** `a` and `b` can be ordered by Python without a TypeError. */
  predicate Comparable(a: Canon, b: Canon) {
    Lt(a, b).Some?
  }

  // ---------------------------------------------------------------------
  // `==` is an equivalence

  lemma {:induction false} CEqReflexive(a: Canon)
    ensures CEq(a, a)
  {
    match a
    case CList(xs) =>
      forall i | 0 <= i < |xs| ensures CEq(xs[i], xs[i]) {
        CEqReflexive(xs[i]);
      }
    case CPair(_, v) => CEqReflexive(v);
    case _ =>
  }

  lemma {:induction false} CEqSymmetric(a: Canon, b: Canon)
    requires CEq(a, b)
    ensures CEq(b, a)
  {
    match a
    case CList(xs) =>
      forall i | 0 <= i < |xs| ensures CEq(b.items[i], xs[i]) {
        CEqSymmetric(xs[i], b.items[i]);
      }
    case CPair(_, v) => CEqSymmetric(v, b.val);
    case _ =>
  }

  lemma {:induction false} CEqTransitive(a: Canon, b: Canon, c: Canon)
    requires CEq(a, b) && CEq(b, c)
    ensures CEq(a, c)
  {
    match a
    case CList(xs) =>
      forall i | 0 <= i < |xs| ensures CEq(xs[i], c.items[i]) {
        CEqTransitive(xs[i], b.items[i], c.items[i]);
      }
    case CPair(_, v) => CEqTransitive(v, b.val, c.val);
    case _ =>
  }

  lemma {:induction false} SeqEqReflexive(xs: seq<Canon>)
    ensures SeqEq(xs, xs)
  {
    forall i | 0 <= i < |xs| ensures CEq(xs[i], xs[i]) {
      CEqReflexive(xs[i]);
    }
  }

  lemma {:induction false} SeqEqSymmetric(xs: seq<Canon>, ys: seq<Canon>)
    requires SeqEq(xs, ys)
    ensures SeqEq(ys, xs)
  {
    forall i | 0 <= i < |ys| ensures CEq(ys[i], xs[i]) {
      CEqSymmetric(xs[i], ys[i]);
    }
  }

  lemma {:induction false} SeqEqTransitive(xs: seq<Canon>, ys: seq<Canon>, zs: seq<Canon>)
    requires SeqEq(xs, ys) && SeqEq(ys, zs)
    ensures SeqEq(xs, zs)
  {
    forall i | 0 <= i < |xs| ensures CEq(xs[i], zs[i]) {
      CEqTransitive(xs[i], ys[i], zs[i]);
    }
  }

  // ---------------------------------------------------------------------
  // Strings

  lemma {:induction false} StrLtIrreflexive(s: string)
    ensures !StrLt(s, s)
  {
    if |s| > 0 {
      StrLtIrreflexive(s[1..]);
    }
  }

  lemma {:induction false} StrLtAsymmetric(s: string, t: string)
    requires StrLt(s, t)
    ensures !StrLt(t, s)
    decreases |s|
  {
    if |s| > 0 && |t| > 0 && s[0] == t[0] {
      StrLtAsymmetric(s[1..], t[1..]);
    }
  }

  lemma {:induction false} StrLtTotal(s: string, t: string)
    requires s != t
    ensures StrLt(s, t) || StrLt(t, s)
    decreases |s|
  {
    if |s| > 0 && |t| > 0 && s[0] == t[0] {
      assert s == [s[0]] + s[1..] && t == [t[0]] + t[1..];
      StrLtTotal(s[1..], t[1..]);
    }
  }

  lemma {:induction false} StrLtTransitive(s: string, t: string, u: string)
    requires StrLt(s, t) && StrLt(t, u)
    ensures StrLt(s, u)
    decreases |s|
  {
    if |s| > 0 && s[0] == t[0] && t[0] == u[0] {
      StrLtTransitive(s[1..], t[1..], u[1..]);
    }
  }

  // ---------------------------------------------------------------------
  // The first differing position

  lemma {:induction false} FirstDiffIs(xs: seq<Canon>, ys: seq<Canon>, m: nat)
    requires m <= |xs| && m <= |ys|
    requires forall k :: 0 <= k < m ==> CEq(xs[k], ys[k])
    requires m < |xs| && m < |ys| ==> !CEq(xs[m], ys[m])
    ensures FirstDiff(xs, ys) == m
  {
  }

  lemma {:induction false} FirstDiffSymmetric(xs: seq<Canon>, ys: seq<Canon>)
    ensures FirstDiff(ys, xs) == FirstDiff(xs, ys)
  {
    var i := FirstDiff(xs, ys);
    forall k | 0 <= k < i ensures CEq(ys[k], xs[k]) {
      CEqSymmetric(xs[k], ys[k]);
    }
    if i < |xs| && i < |ys| && CEq(ys[i], xs[i]) {
      CEqSymmetric(ys[i], xs[i]);
    }
    FirstDiffIs(ys, xs, i);
  }

  /** Replacing the left list by an equal one moves no difference. */
  lemma {:induction false} FirstDiffCongruentLeft(xs: seq<Canon>, xs': seq<Canon>, ys: seq<Canon>)
    requires SeqEq(xs, xs')
    ensures FirstDiff(xs', ys) == FirstDiff(xs, ys)
  {
    var i := FirstDiff(xs, ys);
    forall k | 0 <= k < i ensures CEq(xs'[k], ys[k]) {
      CEqSymmetric(xs[k], xs'[k]);
      CEqTransitive(xs'[k], xs[k], ys[k]);
    }
    if i < |xs| && i < |ys| && CEq(xs'[i], ys[i]) {
      CEqTransitive(xs[i], xs'[i], ys[i]);
    }
    FirstDiffIs(xs', ys, i);
  }

  lemma {:induction false} FirstDiffCongruentRight(xs: seq<Canon>, ys: seq<Canon>, ys': seq<Canon>)
    requires SeqEq(ys, ys')
    ensures FirstDiff(xs, ys') == FirstDiff(xs, ys)
  {
    FirstDiffSymmetric(xs, ys);
    FirstDiffSymmetric(xs, ys');
    FirstDiffCongruentLeft(ys, ys', xs);
  }

  // ---------------------------------------------------------------------
  // Laws of `<`: on comparable values it is a strict weak order whose
  // incomparability classes are the `==` classes.

  /** `<` does not distinguish values that are `==` (left operand). */
  lemma {:induction false} LtCongruentLeft(a: Canon, a': Canon, b: Canon)
    requires CEq(a, a')
    ensures Lt(a', b) == Lt(a, b)
    decreases a
  {
    match a
    case CList(xs) =>
      if b.CList? {
        var ys := b.items;
        var xs' := a'.items;
        FirstDiffCongruentLeft(xs, xs', ys);
        var i := FirstDiff(xs, ys);
        if i < |xs| && i < |ys| {
          LtCongruentLeft(xs[i], xs'[i], ys[i]);
        }
      }
    case CPair(k, v) =>
      if b.CPair? && k == b.key {
        if CEq(v, b.val) {
          CEqSymmetric(v, a'.val);
          CEqTransitive(a'.val, v, b.val);
        } else {
          if CEq(a'.val, b.val) {
            CEqTransitive(v, a'.val, b.val);
          }
          LtCongruentLeft(v, a'.val, b.val);
        }
      }
    case _ =>
  }

  /** `<` does not distinguish values that are `==` (right operand). */
  lemma {:induction false} LtCongruentRight(a: Canon, b: Canon, b': Canon)
    requires CEq(b, b')
    ensures Lt(a, b') == Lt(a, b)
    decreases a
  {
    match a
    case CList(xs) =>
      if b.CList? {
        var ys := b.items;
        var ys' := b'.items;
        FirstDiffCongruentRight(xs, ys, ys');
        var i := FirstDiff(xs, ys);
        if i < |xs| && i < |ys| {
          LtCongruentRight(xs[i], ys[i], ys'[i]);
        }
      }
    case CPair(k, v) =>
      if b.CPair? && k == b.key {
        if CEq(v, b.val) {
          CEqTransitive(v, b.val, b'.val);
        } else {
          if CEq(v, b'.val) {
            CEqSymmetric(b.val, b'.val);
            CEqTransitive(v, b'.val, b.val);
          }
          LtCongruentRight(v, b.val, b'.val);
        }
      }
    case _ =>
  }

  /** Equal values are never less than each other. */
  lemma {:induction false} LtIrreflexive(a: Canon, b: Canon)
    requires CEq(a, b)
    ensures Lt(a, b) != Some(true)
  {
    match a
    case CList(xs) => FirstDiffIs(xs, b.items, |xs|);
    case CStr(s) => StrLtIrreflexive(s);
    case _ =>
  }

  lemma {:induction false} LtAsymmetric(a: Canon, b: Canon)
    requires Lt(a, b) == Some(true)
    ensures Lt(b, a) == Some(false)
    decreases a
  {
    match a
    case CStr(s) => StrLtAsymmetric(s, b.s);
    case CList(xs) =>
      var ys := b.items;
      FirstDiffSymmetric(xs, ys);
      var i := FirstDiff(xs, ys);
      if i < |xs| && i < |ys| {
        LtAsymmetric(xs[i], ys[i]);
      }
    case CPair(k, v) =>
      if k != b.key {
        StrLtAsymmetric(k, b.key);
      } else {
        if CEq(b.val, v) {
          CEqSymmetric(b.val, v);
        }
        LtAsymmetric(v, b.val);
      }
    case _ =>
  }

  /** Two comparable values that are not less than each other are equal. */
  lemma {:induction false} LtTotal(a: Canon, b: Canon)
    requires Lt(a, b) == Some(false)
    ensures Lt(b, a) == Some(true) || CEq(a, b)
    decreases a
  {
    match a
    case CStr(s) =>
      if s != b.s {
        StrLtTotal(s, b.s);
      }
    case CList(xs) =>
      var ys := b.items;
      FirstDiffSymmetric(xs, ys);
      var i := FirstDiff(xs, ys);
      if i < |xs| && i < |ys| {
        LtTotal(xs[i], ys[i]);
      }
    case CPair(k, v) =>
      if k != b.key {
        StrLtTotal(k, b.key);
      } else if !CEq(v, b.val) {
        LtTotal(v, b.val);
        if CEq(b.val, v) {
          CEqSymmetric(b.val, v);
        }
      }
    case _ =>
  }

  /** Comparability is symmetric: `a < b` raises exactly when `b < a` does. */
  lemma {:induction false} ComparableSymmetric(a: Canon, b: Canon)
    requires Comparable(a, b)
    ensures Comparable(b, a)
  {
    if Lt(a, b).value {
      LtAsymmetric(a, b);
    } else {
      LtTotal(a, b);
      if CEq(a, b) {
        LtCongruentLeft(a, b, a);
        LtCongruentRight(a, a, b);
      }
    }
  }

  /** Python's `a <= b` as the sort sees it: comparable, and `b < a` is false. */
  predicate Le(a: Canon, b: Canon) {
    Lt(b, a) == Some(false)
  }

  /** Where `b < a` is defined and false, `a <= b`. */
  lemma {:induction false} LeOfNotLt(a: Canon, b: Canon)
    requires Comparable(b, a) && Lt(b, a) != Some(true)
    ensures Le(a, b)
  {
    var o := Lt(b, a);
    assert !o.value;
    assert o == Some(false);
  }

  lemma {:induction false} LtTransitive(a: Canon, b: Canon, c: Canon)
    requires Lt(a, b) == Some(true) && Lt(b, c) == Some(true)
    ensures Lt(a, c) == Some(true)
    decreases a
  {
    match a
    case CStr(s) => StrLtTransitive(s, b.s, c.s);
    case CList(xs) =>
      var ys, zs := b.items, c.items;
      var i, j := FirstDiff(xs, ys), FirstDiff(ys, zs);
      var m := if i < j then i else j;
      forall k | 0 <= k < m ensures CEq(xs[k], zs[k]) {
        CEqTransitive(xs[k], ys[k], zs[k]);
      }
      if i < j {
        if i < |xs| && i < |ys| {
          LtCongruentRight(xs[i], ys[i], zs[i]);
          if CEq(xs[i], zs[i]) {
            LtIrreflexive(xs[i], zs[i]);
          }
        }
        FirstDiffIs(xs, zs, i);
      } else if j < i {
        CEqSymmetric(xs[j], ys[j]);
        LtCongruentLeft(ys[j], xs[j], zs[j]);
        if CEq(xs[j], zs[j]) {
          LtIrreflexive(xs[j], zs[j]);
        }
        FirstDiffIs(xs, zs, j);
      } else if i < |xs| && i < |ys| {
        LtTransitive(xs[i], ys[i], zs[i]);
        if CEq(xs[i], zs[i]) {
          LtIrreflexive(xs[i], zs[i]);
        }
        FirstDiffIs(xs, zs, i);
      } else {
        FirstDiffIs(xs, zs, i);
      }
    case CPair(k, v) =>
      if k != b.key || b.key != c.key {
        if k != b.key && b.key != c.key {
          StrLtTransitive(k, b.key, c.key);
        }
        if k == c.key {
          StrLtIrreflexive(k);
        }
      } else {
        LtTransitive(v, b.val, c.val);
        if CEq(v, c.val) {
          LtIrreflexive(v, c.val);
        }
      }
    case _ =>
  }

  /** `a <= b <= c` implies `a <= c`: in particular `c < a` is defined. */
  lemma {:induction false} LeTransitive(a: Canon, b: Canon, c: Canon)
    requires Le(a, b) && Le(b, c)
    ensures Le(a, c)
  {
    LtTotal(b, a);
    LtTotal(c, b);
    if Lt(a, b) == Some(true) {
      if Lt(b, c) == Some(true) {
        LtTransitive(a, b, c);
      } else {
        CEqSymmetric(c, b);
        LtCongruentRight(a, b, c);
      }
      LtAsymmetric(a, c);
    } else if Lt(b, c) == Some(true) {
      LtCongruentLeft(b, a, c);
      LtAsymmetric(a, c);
    } else {
      LtCongruentLeft(c, b, a);
    }
  }

  /** `a <= b < c` implies `a < c`. */
  lemma {:induction false} LeLtTransitive(a: Canon, b: Canon, c: Canon)
    requires Le(a, b) && Lt(b, c) == Some(true)
    ensures Lt(a, c) == Some(true)
  {
    LtTotal(b, a);
    if Lt(a, b) == Some(true) {
      LtTransitive(a, b, c);
    } else {
      CEqSymmetric(b, a);
      LtCongruentLeft(b, a, c);
    }
  }
}
