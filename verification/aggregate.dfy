/**
  The verdict fold of `execute`: every record of the first run's collection
  is paired with every record of the second run's collection; a pair whose
  parameters are present, whose test-case ids agree and whose runner ids
  are the two runs under comparison has its result payloads compared, and
  the verdict of a test case is the first comparison recorded for it,
  downgraded to False by any later failing one.
 */
module Aggregate {
  import opened Nodes
  import opened Fallback
  import opened Compare

  /** One stored test-run document. */
  datatype Record = Record(testcaseId: string, runnerId: string, paramData: Node, resultData: Node)

  /** The filter applied to a pair of records before comparing them. */
  predicate Contributes(x: Record, y: Record, id1: string, id2: string) {
    !x.paramData.Null? && !y.paramData.Null? &&
    x.testcaseId == y.testcaseId && x.runnerId == id1 && y.runnerId == id2
  }

  /** `col1[p]` and `col2[q]` form a compared pair for test case `k`. */
  predicate PairFor(col1: seq<Record>, col2: seq<Record>, id1: string, id2: string, k: string, p: int, q: int) {
    0 <= p < |col1| && 0 <= q < |col2| &&
    Contributes(col1[p], col2[q], id1, id2) && col1[p].testcaseId == k
  }

  /** The pair `(p, q)` is visited before the pair `(i, j)` by the nested
      loops. */
  predicate Before(p: int, q: int, i: int, j: int) {
    p < i || (p == i && q < j)
  }

  predicate Passes(x: Record, y: Record, ev: Eval) {
    RecordCompare(x.resultData, y.resultData, ev)
  }

  /** The comparison the fold records for a pair; the lemmas about the fold
      hold for any, and `Execute` uses `Passes`. */
  type Verdict = (Record, Record) -> bool

  function Passer(ev: Eval): Verdict {
    (x, y) => Passes(x, y, ev)
  }

  /** Some compared pair for `k` is visited before `(i, j)`. */
  ghost predicate Seen(col1: seq<Record>, col2: seq<Record>, id1: string, id2: string, k: string, i: int, j: int) {
    exists p, q :: PairFor(col1, col2, id1, id2, k, p, q) && Before(p, q, i, j)
  }

  /** Every compared pair for `k` visited before `(i, j)` passes. */
  ghost predicate AllPass(col1: seq<Record>, col2: seq<Record>, id1: string, id2: string, pass: Verdict, k: string, i: int, j: int) {
    forall p, q :: PairFor(col1, col2, id1, id2, k, p, q) && Before(p, q, i, j) ==> pass(col1[p], col2[q])
  }

  /** Visiting `(i, j)` adds exactly that pair to the visited ones. */
  lemma {:induction false} VisitStep(col1: seq<Record>, col2: seq<Record>, id1: string, id2: string, pass: Verdict, k: string, i: int, j: int)
    ensures Seen(col1, col2, id1, id2, k, i, j + 1) <==>
      Seen(col1, col2, id1, id2, k, i, j) || PairFor(col1, col2, id1, id2, k, i, j)
    ensures AllPass(col1, col2, id1, id2, pass, k, i, j + 1) <==>
      AllPass(col1, col2, id1, id2, pass, k, i, j) &&
      (PairFor(col1, col2, id1, id2, k, i, j) ==> pass(col1[i], col2[j]))
  {
    if Seen(col1, col2, id1, id2, k, i, j + 1) && !PairFor(col1, col2, id1, id2, k, i, j) {
      var p, q :| PairFor(col1, col2, id1, id2, k, p, q) && Before(p, q, i, j + 1);
      assert Before(p, q, i, j);
    }
  }

  /** Finishing a row of the inner loop is starting the next row. */
  lemma {:induction false} RowStep(col1: seq<Record>, col2: seq<Record>, id1: string, id2: string, pass: Verdict, k: string, i: int)
    ensures Seen(col1, col2, id1, id2, k, i, |col2|) <==> Seen(col1, col2, id1, id2, k, i + 1, 0)
    ensures AllPass(col1, col2, id1, id2, pass, k, i, |col2|) <==> AllPass(col1, col2, id1, id2, pass, k, i + 1, 0)
  {
  }

  lemma {:induction false} RowTracks(result: map<string, bool>, col1: seq<Record>, col2: seq<Record>, id1: string, id2: string, pass: Verdict, i: int)
    requires Tracks(result, col1, col2, id1, id2, pass, i, |col2|)
    ensures Tracks(result, col1, col2, id1, id2, pass, i + 1, 0)
  {
    forall k {
      RowStep(col1, col2, id1, id2, pass, k, i);
    }
  }

  /** Recording one comparison result `res` for test case `k`: the first
      result is kept, and a later False overrides a True. */
  function Note(result: map<string, bool>, k: string, res: bool): (r: map<string, bool>)
    ensures r.Keys == result.Keys + {k}
    ensures r[k] == (if k in result then result[k] && res else res)
    ensures forall k' :: k' in result && k' != k ==> r[k'] == result[k']
  {
    if k !in result then result[k := res]
    else if !res && result[k] then result[k := res]
    else result
  }

  /** `result` holds the verdicts of the pairs visited before `(i, j)`. */
  ghost predicate Tracks(result: map<string, bool>, col1: seq<Record>, col2: seq<Record>, id1: string, id2: string, pass: Verdict, i: int, j: int) {
    (forall k :: k in result <==> Seen(col1, col2, id1, id2, k, i, j)) &&
    (forall k :: k in result ==> (result[k] <==> AllPass(col1, col2, id1, id2, pass, k, i, j)))
  }

  /** The verdicts after visiting `(i, j)`. */
  function Visit(result: map<string, bool>, x: Record, y: Record, id1: string, id2: string, pass: Verdict): map<string, bool> {
    if Contributes(x, y, id1, id2) then Note(result, x.testcaseId, pass(x, y)) else result
  }

  /** A pair that is not compared changes nothing. */
  lemma {:induction false} SkipTracks(result: map<string, bool>, col1: seq<Record>, col2: seq<Record>, id1: string, id2: string, pass: Verdict, i: int, j: int)
    requires 0 <= i < |col1| && 0 <= j < |col2| && !Contributes(col1[i], col2[j], id1, id2)
    requires Tracks(result, col1, col2, id1, id2, pass, i, j)
    ensures Tracks(result, col1, col2, id1, id2, pass, i, j + 1)
  {
    forall k {
      VisitStep(col1, col2, id1, id2, pass, k, i, j);
    }
  }

  /** A compared pair adds its verdict to the entry of its test case. */
  lemma {:induction false} NoteTracks(result: map<string, bool>, col1: seq<Record>, col2: seq<Record>, id1: string, id2: string, pass: Verdict, i: int, j: int)
    requires 0 <= i < |col1| && 0 <= j < |col2| && Contributes(col1[i], col2[j], id1, id2)
    requires Tracks(result, col1, col2, id1, id2, pass, i, j)
    ensures Tracks(Note(result, col1[i].testcaseId, pass(col1[i], col2[j])), col1, col2, id1, id2, pass, i, j + 1)
  {
    var k0, res := col1[i].testcaseId, pass(col1[i], col2[j]);
    var r := Note(result, k0, res);
    assert PairFor(col1, col2, id1, id2, k0, i, j);
    forall k ensures k in r <==> Seen(col1, col2, id1, id2, k, i, j + 1) {
      VisitStep(col1, col2, id1, id2, pass, k, i, j);
    }
    forall k | k in r ensures r[k] <==> AllPass(col1, col2, id1, id2, pass, k, i, j + 1) {
      VisitStep(col1, col2, id1, id2, pass, k, i, j);
      if k != k0 {
        assert !PairFor(col1, col2, id1, id2, k, i, j);
      }
    }
  }

  lemma {:induction false} VisitTracks(result: map<string, bool>, col1: seq<Record>, col2: seq<Record>, id1: string, id2: string, pass: Verdict, i: int, j: int)
    requires 0 <= i < |col1| && 0 <= j < |col2|
    requires Tracks(result, col1, col2, id1, id2, pass, i, j)
    ensures Tracks(Visit(result, col1[i], col2[j], id1, id2, pass), col1, col2, id1, id2, pass, i, j + 1)
  {
    if Contributes(col1[i], col2[j], id1, id2) {
      NoteTracks(result, col1, col2, id1, id2, pass, i, j);
    } else {
      SkipTracks(result, col1, col2, id1, id2, pass, i, j);
    }
  }

  /** The verdicts after visiting `(i, 0)` to `(i, j - 1)`, starting from
      `result`. */
  function RowFold(result: map<string, bool>, col1: seq<Record>, col2: seq<Record>, id1: string, id2: string, pass: Verdict,
                   i: nat, j: nat): map<string, bool>
    requires i < |col1| && j <= |col2|
  {
    if j == 0 then result
    else Visit(RowFold(result, col1, col2, id1, id2, pass, i, j - 1), col1[i], col2[j - 1], id1, id2, pass)
  }

  lemma {:induction false} RowFoldTracks(before: map<string, bool>, col1: seq<Record>, col2: seq<Record>, id1: string, id2: string,
                                         pass: Verdict, i: nat, j: nat)
    requires i < |col1| && j <= |col2|
    requires Tracks(before, col1, col2, id1, id2, pass, i, 0)
    ensures Tracks(RowFold(before, col1, col2, id1, id2, pass, i, j), col1, col2, id1, id2, pass, i, j)
  {
    if j > 0 {
      RowFoldTracks(before, col1, col2, id1, id2, pass, i, j - 1);
      VisitTracks(RowFold(before, col1, col2, id1, id2, pass, i, j - 1), col1, col2, id1, id2, pass, i, j - 1);
    }
  }

  /** The inner loop of `execute`: visits the pairs `(i, 0)` to
      `(i, |col2| - 1)`, extending the verdicts of the pairs before them to
      the verdicts of the pairs before `(i + 1, 0)`. */
  method VisitRow(col1: seq<Record>, col2: seq<Record>, id1: string, id2: string, ev: Eval,
                  i: nat, before: map<string, bool>)
    returns (result: map<string, bool>)
    requires i < |col1|
    requires Tracks(before, col1, col2, id1, id2, Passer(ev), i, 0)
    ensures Tracks(result, col1, col2, id1, id2, Passer(ev), i + 1, 0)
  {
    result := before;
    var j := 0;
    while j < |col2|
      invariant 0 <= j <= |col2|
      invariant result == RowFold(before, col1, col2, id1, id2, Passer(ev), i, j)
    {
      var x, y := col1[i], col2[j];
      if Contributes(x, y, id1, id2) {
        result := Note(result, x.testcaseId, RecordCompare(x.resultData, y.resultData, ev));
      }
      j := j + 1;
    }
    RowFoldTracks(before, col1, col2, id1, id2, Passer(ev), i, |col2|);
    RowTracks(result, col1, col2, id1, id2, Passer(ev), i);
  }

  /** Once every pair is visited, the tracked verdicts are the verdicts
      over all compared pairs. */
  lemma {:induction false} TracksAll(result: map<string, bool>, col1: seq<Record>, col2: seq<Record>, id1: string, id2: string, ev: Eval)
    requires Tracks(result, col1, col2, id1, id2, Passer(ev), |col1|, 0)
    ensures forall k :: k in result <==> exists p, q :: PairFor(col1, col2, id1, id2, k, p, q)
    ensures forall k :: k in result ==>
      (result[k] <==> forall p, q :: PairFor(col1, col2, id1, id2, k, p, q) ==> Passes(col1[p], col2[q], ev))
  {
    forall k | k in result
      ensures result[k] <==> forall p, q :: PairFor(col1, col2, id1, id2, k, p, q) ==> Passes(col1[p], col2[q], ev)
    {
      assert result[k] <==> AllPass(col1, col2, id1, id2, Passer(ev), k, |col1|, 0);
    }
  }

  /** The verdict map: a test case gets an entry exactly when some pair
      of records was compared for it, and the entry is True exactly when
      every such pair matched. */
  method Execute(col1: seq<Record>, col2: seq<Record>, id1: string, id2: string, ev: Eval)
    returns (result: map<string, bool>)
    ensures forall k :: k in result <==> exists p, q :: PairFor(col1, col2, id1, id2, k, p, q)
    ensures forall k :: k in result ==>
      (result[k] <==> forall p, q :: PairFor(col1, col2, id1, id2, k, p, q) ==> Passes(col1[p], col2[q], ev))
  {
    result := map[];
    var i := 0;
    while i < |col1|
      invariant 0 <= i <= |col1|
      invariant Tracks(result, col1, col2, id1, id2, Passer(ev), i, 0)
    {
      result := VisitRow(col1, col2, id1, id2, ev, i, result);
      i := i + 1;
    }
    TracksAll(result, col1, col2, id1, id2, ev);
  }
}
