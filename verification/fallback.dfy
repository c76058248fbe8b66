/**
  The structural fallback comparison, used when canonicalisation raises:
  `my_obj_cmp` and `my_list_cmp`.

  Lists are compared by length and then by looking each left item up,
  first match wins, among the right-hand side's members; a right-hand
  member may be matched any number of times. Dictionaries are compared by
  key set and then value by value. A scalar value inside a dictionary that
  is a string on both sides is passed through Python's `eval` first; the
  parameter `ev` says what `eval` does with each string.
 */
module Fallback {
  import opened Wrappers
  import opened Nodes

  /** The type of a value `eval` returns, as far as the comparison asks. */
  datatype PyType = IntType | FloatType | OtherType(name: string)

  /** What `eval(t)` does: return a value of some type, raise one of the two
      exceptions the comparison catches, or raise anything else. */
  datatype EvalOutcome = Evaluated(t: PyType) | SyntaxError | NameError | Raised

  /** `eval` on the strings it may be given. */
  type Eval = string -> EvalOutcome

  // ---------------------------------------------------------------------
  // `str.strip('%')`

  function StripLeft(s: string): (r: string)
    ensures |r| <= |s| && r == s[|s| - |r|..]
    ensures forall k :: 0 <= k < |s| - |r| ==> s[k] == '%'
    ensures |r| > 0 ==> r[0] != '%'
  {
    if |s| > 0 && s[0] == '%' then StripLeft(s[1..]) else s
  }

  function StripRight(s: string): (r: string)
    ensures |r| <= |s| && r == s[..|r|]
    ensures forall k :: |r| <= k < |s| ==> s[k] == '%'
    ensures |r| > 0 ==> r[|r| - 1] != '%'
  {
    if |s| > 0 && s[|s| - 1] == '%' then StripRight(s[..|s| - 1]) else s
  }

  predicate AllPercent(s: string, i: int, j: int) {
    forall k :: 0 <= i <= k < j <= |s| ==> s[k] == '%'
  }

  /** `s.strip('%')`: the longest middle part of `s` that neither starts
      nor ends with '%', everything around it being '%'. */
  function StripPercent(s: string): (r: string)
    ensures exists i, j :: 0 <= i <= j <= |s| && r == s[i..j] && AllPercent(s, 0, i) && AllPercent(s, j, |s|)
    ensures |r| > 0 ==> r[0] != '%' && r[|r| - 1] != '%'
  {
    var l := StripLeft(s);
    var r := StripRight(l);
    var i := |s| - |l|;
    var j := i + |r|;
    assert r == s[i..j];
    assert AllPercent(s, 0, i) by {
      forall k | 0 <= k < i ensures s[k] == '%' { }
    }
    assert AllPercent(s, j, |s|) by {
      forall k | j <= k < |s| ensures s[k] == '%' {
        assert l[k - i] == s[k];
      }
    }
    r
  }

  // ---------------------------------------------------------------------
  // `len()` and iteration of the right-hand side of `my_list_cmp`

  /** `obj.__len__()`: defined for lists, strings and dictionaries; None,
      bools and ints have no such method. */
  function Len(n: Node): (r: Result<nat, Fault>)
    ensures r.Err? <==> n.Null? || n.Bool? || n.Int?
    ensures r.Ok? ==> r.value == |Members(n)|
  {
    match n
    case List(xs) => Ok(|xs|)
    case Str(s) => Ok(|s|)
    case Dict(d) => Ok(|d|)
    case _ => Err(NoLength)
  }

  /** What `for m in obj` yields: a list's items, a string's characters as
      one-character strings, a dictionary's keys. */
  function Members(n: Node): (r: seq<Node>)
    ensures n.List? ==> r == n.items
    ensures n.Str? ==> |r| == |n.s| && forall i :: 0 <= i < |r| ==> r[i] == Str([n.s[i]])
    ensures n.Dict? ==> |r| == |n.entries| && forall i :: 0 <= i < |r| ==> r[i] == Str(n.entries[i].key)
  {
    match n
    case List(xs) => xs
    case Str(s) => seq(|s|, i requires 0 <= i < |s| => Str([s[i]]))
    case Dict(d) => seq(|d|, i requires 0 <= i < |d| => Str(d[i].key))
    case _ => []
  }

  // ---------------------------------------------------------------------
  // The comparison. `Ok(false)` is a `return False`, `Ok(true)` a
  // `return True`, `Err` an exception escaping the call.

  /** `my_obj_cmp(a, b)`. */
  function ObjCmp(a: Node, b: Node, ev: Eval): Result<bool, Fault>
    decreases a, 3
  {
    match a
    case List(xs) => if !b.List? then Ok(false) else ListCmp(xs, b, ev)
    case Dict(d) =>
      if !b.Dict? then Ok(false)
      else if KeySet(b.entries) != KeySet(d) then Ok(false)
      else DictCmp(d, b.entries, ev)
    case _ => Ok(PyEq(a, b))
  }

  /** `my_list_cmp(xs, other)`: `other` is whatever the caller passes. */
  function ListCmp(xs: seq<Node>, other: Node, ev: Eval): Result<bool, Fault>
    decreases xs, 2
  {
    var n :- Len(other);
    if |xs| != n then Ok(false) else AllFound(xs, Members(other), ev)
  }

  /** The outer loop of `my_list_cmp`: every item must be found. */
  function AllFound(xs: seq<Node>, cands: seq<Node>, ev: Eval): Result<bool, Fault>
    decreases xs, 1
  {
    if |xs| == 0 then Ok(true)
    else
      var found :- Found(xs[0], cands, ev);
      if !found then Ok(false) else AllFound(xs[1..], cands, ev)
  }

  /** The inner loop: scan the candidates until one compares true. */
  function Found(x: Node, cands: seq<Node>, ev: Eval): Result<bool, Fault>
    decreases x, 4 + |cands|
  {
    if |cands| == 0 then Ok(false)
    else
      var hit :- ObjCmp(x, cands[0], ev);
      if hit then Ok(true) else Found(x, cands[1..], ev)
  }

  /** The loop over the keys of the left dictionary, in its entry order;
      `e` holds the same keys. */
  function DictCmp(d: seq<Entry>, e: seq<Entry>, ev: Eval): Result<bool, Fault>
    decreases d, 2
  {
    if |d| == 0 then Ok(true)
    else
      var same :- ValueCmp(d[0].value, Get(e, d[0].key), ev);
      if !same then Ok(false) else DictCmp(d[1..], e, ev)
  }

  /** The `try` block of a scalar dictionary value: the `numbers` flag it
      leaves, or the exception that escapes its two `except` clauses.
      `eval(val2)` is reached only when `eval(val1)` returned. */
  function TryNumbers(v1: Node, v2: Node, ev: Eval): (r: Result<bool, Fault>)
    ensures r == Ok(true) ==>
      v1.Str? && v2.Str? && ev(StripPercent(v1.s)) == ev(StripPercent(v2.s)) &&
      ev(StripPercent(v1.s)) in {Evaluated(IntType), Evaluated(FloatType)}
    ensures r.Err? ==>
      v1.Str? && v2.Str? && (ev(StripPercent(v1.s)).Raised? || ev(StripPercent(v2.s)).Raised?)
    ensures v1.Str? && v2.Str? && v1.s == v2.s ==> (r.Err? <==> ev(StripPercent(v1.s)).Raised?)
  {
    if v1.Str? && v2.Str? then
      match ev(StripPercent(v1.s))
      case Raised => Err(EvalFault)
      case Evaluated(t1) =>
        (match ev(StripPercent(v2.s))
         case Raised => Err(EvalFault)
         case Evaluated(t2) => Ok(t1 == t2 && (t1 == IntType || t1 == FloatType))
         case _ => Ok(false))
      case _ => Ok(false)
    else Ok(false)
  }

  /** Two strings that `eval` reads as ints set the `numbers` flag. */
  lemma {:induction false} NumbersSet(v1: Node, v2: Node, ev: Eval)
    requires v1.Str? && v2.Str?
    requires ev(StripPercent(v1.s)) == Evaluated(IntType) && ev(StripPercent(v2.s)) == Evaluated(IntType)
    ensures TryNumbers(v1, v2, ev) == Ok(true)
  {
  }

  /** A scalar dictionary value: the `try` block runs, then the `finally`
      clause returns False when the values differ, which also discards an
      exception of the `try` block; otherwise such an exception escapes.
      The `numbers` flag is never read. */
  function ScalarCmp(v1: Node, v2: Node, ev: Eval): (r: Result<bool, Fault>)
    ensures r.Ok? ==> (r.value <==> PyEq(v2, v1))
    ensures r.Err? <==> PyEq(v2, v1) && v1.Str? && v2.Str? && ev(StripPercent(v1.s)).Raised?
  {
    var numbers := TryNumbers(v1, v2, ev);
    if !PyEq(v2, v1) then Ok(false)
    else if numbers.Err? then Err(numbers.error)
    else Ok(true)
  }

  /** Strings of different lengths are not `==`. */
  lemma LongerDiffers(s: string, t: string)
    requires |s| != |t|
    ensures !PyEq(Str(t), Str(s))
  {
  }

  /** A number and the same number with a '%' sign: `eval` sees the same
      integer in both, and the `numbers` flag is set, but the values are
      still compared as strings, so they differ. */
  lemma {:induction false} PercentNotNumeric(s: string, ev: Eval)
    requires |s| > 0 && s[0] != '%' && s[|s| - 1] != '%' && ev(s) == Evaluated(IntType)
    ensures TryNumbers(Str(s + "%"), Str(s), ev) == Ok(true)
    ensures ScalarCmp(Str(s + "%"), Str(s), ev) == Ok(false)
  {
    StripTrailingPercent(s);
    StripPlain(s);
    NumbersSet(Str(s + "%"), Str(s), ev);
    LongerDiffers(s + "%", s);
  }

  /** What the dictionary loop does with one value: a list goes to
      `my_list_cmp` whatever the other value is, a dictionary back to
      `my_obj_cmp`. */
  function ValueCmp(v1: Node, v2: Node, ev: Eval): Result<bool, Fault>
    decreases v1, 4
  {
    if v1.List? then ListCmp(v1.items, v2, ev)
    else if v1.Dict? then ObjCmp(v1, v2, ev)
    else ScalarCmp(v1, v2, ev)
  }

  // ---------------------------------------------------------------------
  // What the loops compute

  /** A list against a non-list and a dictionary against a non-dictionary
      are rejected, as are dictionaries whose key sets differ in either
      direction; a scalar on the left is compared with plain `==`. */
  lemma {:induction false} ObjCmpKinds(a: Node, b: Node, ev: Eval)
    ensures a.List? && !b.List? ==> ObjCmp(a, b, ev) == Ok(false)
    ensures a.Dict? && !b.Dict? ==> ObjCmp(a, b, ev) == Ok(false)
    ensures a.Dict? && b.Dict? && (exists i :: 0 <= i < |b.entries| && !HasKey(a.entries, b.entries[i].key)) ==>
      ObjCmp(a, b, ev) == Ok(false)
    ensures a.Dict? && b.Dict? && (exists i :: 0 <= i < |a.entries| && !HasKey(b.entries, a.entries[i].key)) ==>
      ObjCmp(a, b, ev) == Ok(false)
    ensures !a.List? && !a.Dict? ==> ObjCmp(a, b, ev) == Ok(PyEq(a, b))
  {
    if a.Dict? && b.Dict? {
      if exists i :: 0 <= i < |b.entries| && !HasKey(a.entries, b.entries[i].key) {
        var i :| 0 <= i < |b.entries| && !HasKey(a.entries, b.entries[i].key);
        assert b.entries[i].key in KeySet(b.entries);
      }
      if exists i :: 0 <= i < |a.entries| && !HasKey(b.entries, a.entries[i].key) {
        var i :| 0 <= i < |a.entries| && !HasKey(b.entries, a.entries[i].key);
        assert a.entries[i].key in KeySet(a.entries);
      }
    }
  }

  /** The inner loop reports no match exactly when every candidate
      compares false. */
  lemma {:induction false} FoundFalseSpec(x: Node, cands: seq<Node>, ev: Eval)
    ensures Found(x, cands, ev) == Ok(false) <==> forall j :: 0 <= j < |cands| ==> ObjCmp(x, cands[j], ev) == Ok(false)
    decreases |cands|
  {
    if |cands| > 0 {
      FoundFalseSpec(x, cands[1..], ev);
      assert forall j :: 1 <= j < |cands| ==> cands[1..][j - 1] == cands[j];
    }
  }

  /** A reported match is a candidate comparing true after candidates
      that all compare false. */
  lemma {:induction false} FoundTrueWitness(x: Node, cands: seq<Node>, ev: Eval)
    requires Found(x, cands, ev) == Ok(true)
    ensures exists j :: 0 <= j < |cands| && ObjCmp(x, cands[j], ev) == Ok(true) && FalseBefore(x, cands, j, ev)
    decreases |cands|
  {
    if ObjCmp(x, cands[0], ev) == Ok(true) {
      assert FalseBefore(x, cands, 0, ev);
    } else {
      FoundTrueWitness(x, cands[1..], ev);
      var j :| 0 <= j < |cands[1..]| && ObjCmp(x, cands[1..][j], ev) == Ok(true) && FalseBefore(x, cands[1..], j, ev);
      assert ObjCmp(x, cands[j + 1], ev) == Ok(true) && FalseBefore(x, cands, j + 1, ev);
    }
  }

  /** A candidate comparing true after candidates that all compare false
      is reported as a match. */
  lemma {:induction false} FoundTrueAt(x: Node, cands: seq<Node>, j: int, ev: Eval)
    requires 0 <= j < |cands| && ObjCmp(x, cands[j], ev) == Ok(true) && FalseBefore(x, cands, j, ev)
    ensures Found(x, cands, ev) == Ok(true)
    decreases j
  {
    if j > 0 {
      assert ObjCmp(x, cands[0], ev) == Ok(false);
      assert ObjCmp(x, cands[1..][j - 1], ev) == Ok(true);
      assert FalseBefore(x, cands[1..], j - 1, ev) by {
        forall i | 0 <= i < j - 1 ensures ObjCmp(x, cands[1..][i], ev) == Ok(false) {
          assert cands[1..][i] == cands[i + 1];
        }
      }
      FoundTrueAt(x, cands[1..], j - 1, ev);
    }
  }

  /** The inner loop reports a match exactly when some candidate compares
      true and every candidate before it compares false. */
  lemma {:induction false} FoundTrueSpec(x: Node, cands: seq<Node>, ev: Eval)
    ensures Found(x, cands, ev) == Ok(true) <==>
      exists j :: 0 <= j < |cands| && ObjCmp(x, cands[j], ev) == Ok(true) && FalseBefore(x, cands, j, ev)
  {
    if Found(x, cands, ev) == Ok(true) {
      FoundTrueWitness(x, cands, ev);
    }
    if exists j :: 0 <= j < |cands| && ObjCmp(x, cands[j], ev) == Ok(true) && FalseBefore(x, cands, j, ev) {
      var j :| 0 <= j < |cands| && ObjCmp(x, cands[j], ev) == Ok(true) && FalseBefore(x, cands, j, ev);
      FoundTrueAt(x, cands, j, ev);
    }
  }

  /** The inner loop finds a match exactly when some candidate compares
      true and every candidate before it compares false; it reports none
      exactly when every candidate compares false; otherwise the first
      exception escapes. */
  lemma {:induction false} FoundSpec(x: Node, cands: seq<Node>, ev: Eval)
    ensures Found(x, cands, ev) == Ok(false) <==> forall j :: 0 <= j < |cands| ==> ObjCmp(x, cands[j], ev) == Ok(false)
    ensures Found(x, cands, ev) == Ok(true) <==>
      exists j :: 0 <= j < |cands| && ObjCmp(x, cands[j], ev) == Ok(true) && FalseBefore(x, cands, j, ev)
  {
    FoundFalseSpec(x, cands, ev);
    FoundTrueSpec(x, cands, ev);
  }

  /** Every candidate before position `j` compares false. */
  predicate FalseBefore(x: Node, cands: seq<Node>, j: int, ev: Eval)
    requires j <= |cands|
  {
    forall i :: 0 <= i < j ==> ObjCmp(x, cands[i], ev) == Ok(false)
  }

  /** The outer loop succeeds exactly when every item is found. */
  lemma {:induction false} AllFoundSpec(xs: seq<Node>, cands: seq<Node>, ev: Eval)
    ensures AllFound(xs, cands, ev) == Ok(true) <==> forall i :: 0 <= i < |xs| ==> Found(xs[i], cands, ev) == Ok(true)
    ensures AllFound(xs, cands, ev) == Ok(false) ==> exists i :: 0 <= i < |xs| && Found(xs[i], cands, ev) == Ok(false)
    decreases |xs|
  {
    if |xs| > 0 {
      AllFoundSpec(xs[1..], cands, ev);
      assert forall i :: 1 <= i < |xs| ==> xs[1..][i - 1] == xs[i];
      if AllFound(xs, cands, ev) == Ok(false) && Found(xs[0], cands, ev) != Ok(false) {
        var i :| 0 <= i < |xs[1..]| && Found(xs[1..][i], cands, ev) == Ok(false);
        assert Found(xs[i + 1], cands, ev) == Ok(false);
      }
    }
  }

  /** The dictionary loop succeeds exactly when every value matches. */
  lemma {:induction false} DictCmpSpec(d: seq<Entry>, e: seq<Entry>, ev: Eval)
    ensures DictCmp(d, e, ev) == Ok(true) <==> forall i :: 0 <= i < |d| ==> ValueCmp(d[i].value, Get(e, d[i].key), ev) == Ok(true)
    ensures DictCmp(d, e, ev) == Ok(false) ==> exists i :: 0 <= i < |d| && ValueCmp(d[i].value, Get(e, d[i].key), ev) == Ok(false)
    decreases |d|
  {
    if |d| > 0 {
      DictCmpSpec(d[1..], e, ev);
      assert forall i :: 1 <= i < |d| ==> d[1..][i - 1] == d[i];
      if DictCmp(d, e, ev) == Ok(false) && ValueCmp(d[0].value, Get(e, d[0].key), ev) != Ok(false) {
        var i :| 0 <= i < |d[1..]| && ValueCmp(d[1..][i].value, Get(e, d[1..][i].key), ev) == Ok(false);
        assert d[1..][i] == d[i + 1];
      }
    }
  }

  /** Every item of `xs` compares true with some item of `ys`. */
  predicate Matched(xs: seq<Node>, ys: seq<Node>, ev: Eval) {
    forall i :: 0 <= i < |xs| ==> exists j :: 0 <= j < |ys| && ObjCmp(xs[i], ys[j], ev) == Ok(true)
  }

  /** No comparison of an item of `xs` with an item of `ys` raises. */
  predicate NoRaise(xs: seq<Node>, ys: seq<Node>, ev: Eval) {
    forall i, j :: 0 <= i < |xs| && 0 <= j < |ys| ==> ObjCmp(xs[i], ys[j], ev).Ok?
  }

  /** Two lists compare true only when they have the same length and every
      item on the left compares true with some item on the right; nothing
      requires the matching to be one to one. */
  lemma {:induction false} ListCmpTrue(xs: seq<Node>, ys: seq<Node>, ev: Eval)
    requires ObjCmp(List(xs), List(ys), ev) == Ok(true)
    ensures |xs| == |ys| && Matched(xs, ys, ev)
  {
    assert ObjCmp(List(xs), List(ys), ev) == ListCmp(xs, List(ys), ev);
    assert Len(List(ys)) == Ok(|ys|);
    AllFoundSpec(xs, ys, ev);
    forall i | 0 <= i < |xs| ensures exists j :: 0 <= j < |ys| && ObjCmp(xs[i], ys[j], ev) == Ok(true) {
      FoundSpec(xs[i], ys, ev);
    }
  }

  /** When no item comparison raises, two lists compare true exactly when
      they have the same length and every left item has a match. */
  lemma {:induction false} ListCmpMatches(xs: seq<Node>, ys: seq<Node>, ev: Eval)
    requires NoRaise(xs, ys, ev)
    ensures ObjCmp(List(xs), List(ys), ev) == Ok(|xs| == |ys| && Matched(xs, ys, ev))
  {
    assert ObjCmp(List(xs), List(ys), ev) == ListCmp(xs, List(ys), ev);
    assert Len(List(ys)) == Ok(|ys|);
    AllFoundMatches(xs, ys, ev);
  }

  lemma {:induction false} AllFoundMatches(xs: seq<Node>, cands: seq<Node>, ev: Eval)
    requires NoRaise(xs, cands, ev)
    ensures AllFound(xs, cands, ev) == Ok(Matched(xs, cands, ev))
    decreases |xs|
  {
    if |xs| > 0 {
      FoundMatches(xs[0], cands, ev);
      assert forall i :: 1 <= i < |xs| ==> xs[1..][i - 1] == xs[i];
      AllFoundMatches(xs[1..], cands, ev);
    }
  }

  lemma {:induction false} FoundMatches(x: Node, cands: seq<Node>, ev: Eval)
    requires forall j :: 0 <= j < |cands| ==> ObjCmp(x, cands[j], ev).Ok?
    ensures Found(x, cands, ev) == Ok(exists j :: 0 <= j < |cands| && ObjCmp(x, cands[j], ev) == Ok(true))
    decreases |cands|
  {
    if |cands| > 0 {
      assert forall j :: 1 <= j < |cands| ==> cands[1..][j - 1] == cands[j];
      FoundMatches(x, cands[1..], ev);
    }
  }

  /** Two dictionaries compare true exactly when their key sets are equal
      and every value of the left one compares true with the value under
      the same key on the right. */
  lemma {:induction false} DictCmpMatches(d: seq<Entry>, e: seq<Entry>, ev: Eval)
    ensures ObjCmp(Dict(d), Dict(e), ev) == Ok(true) <==>
      KeySet(d) == KeySet(e) && forall i :: 0 <= i < |d| ==> ValueCmp(d[i].value, Get(e, d[i].key), ev) == Ok(true)
  {
    DictCmpSpec(d, e, ev);
  }

  // ---------------------------------------------------------------------
  // The fallback never rejects documents Python finds equal

  lemma {:induction false} ObjCmpPyEq(a: Node, b: Node, ev: Eval)
    requires WellFormed(a) && WellFormed(b) && PyEq(a, b)
    ensures ObjCmp(a, b, ev) != Ok(false)
    decreases a, 0
  {
    match a
    case List(xs) =>
      var ys := b.items;
      AllFoundSpec(xs, ys, ev);
      if AllFound(xs, ys, ev) == Ok(false) {
        var i :| 0 <= i < |xs| && Found(xs[i], ys, ev) == Ok(false);
        FoundSpec(xs[i], ys, ev);
        ObjCmpPyEq(xs[i], ys[i], ev);
      }
    case Dict(d) =>
      var e := b.entries;
      SameKeys(d, e);
      DictCmpSpec(d, e, ev);
      if DictCmp(d, e, ev) == Ok(false) {
        var i :| 0 <= i < |d| && ValueCmp(d[i].value, Get(e, d[i].key), ev) == Ok(false);
        HasKeyWellFormed(e, d[i].key);
        ValueCmpPyEq(d[i].value, Get(e, d[i].key), ev);
      }
    case _ =>
  }

  lemma {:induction false} ValueCmpPyEq(v1: Node, v2: Node, ev: Eval)
    requires WellFormed(v1) && WellFormed(v2) && PyEq(v1, v2)
    ensures ValueCmp(v1, v2, ev) != Ok(false)
    decreases v1, 1
  {
    if v1.List? || v1.Dict? {
      ObjCmpPyEq(v1, v2, ev);
    }
  }

  lemma {:induction false} HasKeyWellFormed(e: seq<Entry>, k: string)
    requires forall i :: 0 <= i < |e| ==> WellFormed(e[i].value)
    ensures WellFormed(Get(e, k))
  {
    if |e| > 0 && e[0].key != k {
      HasKeyWellFormed(e[1..], k);
    }
  }

  // ---------------------------------------------------------------------
  // Unfolding the loops on small inputs

  /** A string with no '%' at either end is left alone by `strip('%')`. */
  lemma {:induction false} StripPlain(s: string)
    requires |s| > 0 && s[0] != '%' && s[|s| - 1] != '%'
    ensures StripPercent(s) == s
  {
  }

  /** A trailing '%' is stripped. */
  lemma {:induction false} StripTrailingPercent(s: string)
    requires |s| > 0 && s[0] != '%' && s[|s| - 1] != '%'
    ensures StripPercent(s + "%") == s
  {
    var s' := s + "%";
    assert StripLeft(s') == s';
    assert s'[..|s'| - 1] == s;
    assert StripRight(s) == s;
    assert StripRight(s') == s;
  }

  /** The dictionary loop over two entries. */
  lemma {:induction false} DictCmpPair(d: seq<Entry>, e: seq<Entry>, ev: Eval)
    requires |d| == 2
    ensures DictCmp(d, e, ev) ==
      (var r1 :- ValueCmp(d[0].value, Get(e, d[0].key), ev);
       if !r1 then Ok(false) else ValueCmp(d[1].value, Get(e, d[1].key), ev))
  {
    assert d[1..][0] == d[1];
    assert d[1..][1..] == [];
    var r2 := ValueCmp(d[1].value, Get(e, d[1].key), ev);
    assert DictCmp(d[1..][1..], e, ev) == Ok(true);
    assert DictCmp(d[1..], e, ev) == (if r2.Err? then r2 else if !r2.value then Ok(false) else Ok(true));
  }

  /** Two-entry dictionaries with the same keys whose two values both
      compare true. */
  lemma {:induction false} PairCmpTrue(d: seq<Entry>, e: seq<Entry>, ev: Eval)
    requires |d| == 2 && |e| == 2 && KeySet(d) == KeySet(e)
    requires ValueCmp(d[0].value, Get(e, d[0].key), ev) == Ok(true)
    requires ValueCmp(d[1].value, Get(e, d[1].key), ev) == Ok(true)
    ensures ObjCmp(Dict(d), Dict(e), ev) == Ok(true)
  {
    DictCmpPair(d, e, ev);
  }

  /** Two-entry dictionaries with the same keys whose first values
      compare false. */
  lemma {:induction false} PairCmpFalse(d: seq<Entry>, e: seq<Entry>, ev: Eval)
    requires |d| == 2 && |e| == 2 && KeySet(d) == KeySet(e)
    requires ValueCmp(d[0].value, Get(e, d[0].key), ev) == Ok(false)
    ensures ObjCmp(Dict(d), Dict(e), ev) == Ok(false)
  {
    DictCmpPair(d, e, ev);
  }

  /** A string with no '%' to strip on which `eval` raises nothing but
      SyntaxError or NameError. */
  predicate Quiet(ev: Eval, s: string) {
    |s| > 0 && s[0] != '%' && s[|s| - 1] != '%' && !ev(s).Raised?
  }

  /** Such a string compared with itself passes. */
  lemma {:induction false} QuietStrCmp(s: string, ev: Eval)
    requires Quiet(ev, s)
    ensures ScalarCmp(Str(s), Str(s), ev) == Ok(true)
  {
    StripPlain(s);
  }

  /** Two-entry dictionaries of quiet strings, the second holding the
      entries of the first in either order, match. */
  lemma {:induction false} QuietPairsMatch(d: seq<Entry>, e: seq<Entry>, ev: Eval)
    requires |d| == 2 && |e| == 2 && d[0].key != d[1].key
    requires (e[0] == d[0] && e[1] == d[1]) || (e[0] == d[1] && e[1] == d[0])
    requires d[0].value.Str? && d[1].value.Str? && Quiet(ev, d[0].value.s) && Quiet(ev, d[1].value.s)
    ensures ObjCmp(Dict(d), Dict(e), ev) == Ok(true)
  {
    QuietStrCmp(d[0].value.s, ev);
    QuietStrCmp(d[1].value.s, ev);
    GetPair(d);
    GetPair(e);
    PairCmpTrue(d, e, ev);
  }

  /** Two-entry dictionaries with the same keys, in either order, whose
      values under the first key are different strings, do not match. */
  lemma {:induction false} FirstStrDiffers(d: seq<Entry>, e: seq<Entry>, p: nat, ev: Eval)
    requires |d| == 2 && |e| == 2 && d[0].key != d[1].key && p < 2
    requires e[p].key == d[0].key && e[1 - p].key == d[1].key
    requires d[0].value.Str? && e[p].value.Str? && d[0].value != e[p].value
    ensures ObjCmp(Dict(d), Dict(e), ev) == Ok(false)
  {
    GetPair(d);
    GetPair(e);
    PairCmpFalse(d, e, ev);
  }

  /** `x` is found in `cands` at position `j`. */
  lemma {:induction false} FoundAt(x: Node, cands: seq<Node>, j: nat, ev: Eval)
    requires j < |cands| && ObjCmp(x, cands[j], ev) == Ok(true)
    requires forall i :: 0 <= i < j ==> ObjCmp(x, cands[i], ev) == Ok(false)
    ensures Found(x, cands, ev) == Ok(true)
  {
    FoundSpec(x, cands, ev);
    assert FalseBefore(x, cands, j, ev);
  }
  // ---------------------------------------------------------------------
  // When `eval` raises nothing that escapes

  /** `eval` raises nothing but SyntaxError or NameError, whatever string
      it is given. */
  ghost predicate NeverRaises(ev: Eval) {
    forall s :: !ev(s).Raised?
  }

  /** A dictionary whose values are all scalars. */
  predicate ScalarEntries(d: seq<Entry>) {
    forall i :: 0 <= i < |d| ==> !d[i].value.List? && !d[i].value.Dict?
  }

  lemma {:induction false} DictCmpScalarOk(d: seq<Entry>, e: seq<Entry>, ev: Eval)
    requires NeverRaises(ev) && ScalarEntries(d)
    ensures DictCmp(d, e, ev).Ok?
    decreases |d|
  {
    if |d| > 0 {
      assert ScalarCmp(d[0].value, Get(e, d[0].key), ev).Ok?;
      forall i | 0 <= i < |d[1..]| ensures !d[1..][i].value.List? && !d[1..][i].value.Dict? {
        assert d[1..][i] == d[i + 1];
      }
      DictCmpScalarOk(d[1..], e, ev);
    }
  }

  /** Comparing a dictionary of scalars with anything never raises. */
  lemma {:induction false} ScalarDictNeverRaises(d: seq<Entry>, b: Node, ev: Eval)
    requires NeverRaises(ev) && ScalarEntries(d)
    ensures ObjCmp(Dict(d), b, ev).Ok?
  {
    if b.Dict? {
      DictCmpScalarOk(d, b.entries, ev);
    }
  }

  /** When no item comparison raises, the fallback accepts every
      permutation of a list. */
  lemma {:induction false} FallbackPermutation(xs: seq<Node>, ys: seq<Node>, ev: Eval)
    requires forall i :: 0 <= i < |xs| ==> WellFormed(xs[i])
    requires multiset(xs) == multiset(ys)
    requires NoRaise(xs, ys, ev)
    ensures ObjCmp(List(xs), List(ys), ev) == Ok(true)
  {
    ListCmpMatches(xs, ys, ev);
    assert |xs| == |multiset(xs)| == |multiset(ys)| == |ys|;
    forall i | 0 <= i < |xs| ensures exists j :: 0 <= j < |ys| && ObjCmp(xs[i], ys[j], ev) == Ok(true) {
      assert xs[i] in multiset(ys);
      var j :| 0 <= j < |ys| && ys[j] == xs[i];
      PyEqReflexive(xs[i]);
      ObjCmpPyEq(xs[i], xs[i], ev);
      var r := ObjCmp(xs[i], ys[j], ev);
      assert r.Ok? && r != Ok(false);
      assert r.value;
    }
  }

  /** Two dictionaries of the same size compare true when `p` maps each
      entry of the first to an entry of the second with the same key and a
      value that compares true. */
  lemma {:induction false} DictCmpAcceptsAt(d: seq<Entry>, e: seq<Entry>, p: seq<nat>, ev: Eval)
    requires DistinctKeys(d) && DistinctKeys(e) && |d| == |e| == |p|
    requires forall i :: 0 <= i < |d| ==> p[i] < |e| && e[p[i]].key == d[i].key && ValueCmp(d[i].value, e[p[i]].value, ev) == Ok(true)
    ensures ObjCmp(Dict(d), Dict(e), ev) == Ok(true)
  {
    forall i | 0 <= i < |d| ensures HasKey(e, d[i].key) && ValueCmp(d[i].value, Get(e, d[i].key), ev) == Ok(true) {
      assert e[p[i]].key == d[i].key;
    }
    SameKeys(d, e);
    DictCmpMatches(d, e, ev);
  }

  /** Under a quiet `eval` the fallback accepts a dictionary of scalars
      and anything Python finds equal to it. */
  lemma {:induction false} ScalarDictAccepts(d: seq<Entry>, b: Node, ev: Eval)
    requires NeverRaises(ev) && ScalarEntries(d)
    requires WellFormed(Dict(d)) && WellFormed(b) && PyEq(Dict(d), b)
    ensures ObjCmp(Dict(d), b, ev) == Ok(true)
  {
    ScalarDictNeverRaises(d, b, ev);
    ObjCmpPyEq(Dict(d), b, ev);
    var r := ObjCmp(Dict(d), b, ev);
    assert r.value;
  }
}
