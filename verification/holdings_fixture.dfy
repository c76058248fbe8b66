/**
  The first fixture pair: a fund-holdings report (a count, a report date
  and twenty holding rows) and a second copy of it whose top-level keys
  come in another order and whose first three rows are rotated.
 */
module HoldingsFixture {
  import opened Wrappers
  import opened Nodes
  import opened Canonicalise
  import opened Fallback
  import opened Compare

  /** One row of the report's `list` field. */
  datatype Holding = Holding(name: string, share: string, volume: string)

  function HoldingNode(h: Holding): Node {
    Dict([Entry("CHINAMEABBR_", Str(h.name)), Entry("PCTTOTALESHARE_", Str(h.share)), Entry("HOLDINGVOL_", Str(h.volume))])
  }

  function HoldingNodes(hs: seq<Holding>): (r: seq<Node>)
    ensures |r| == |hs| && forall i :: 0 <= i < |hs| ==> r[i] == HoldingNode(hs[i])
  {
    seq(|hs|, i requires 0 <= i < |hs| => HoldingNode(hs[i]))
  }

  /** The report with its keys in the first copy's order. */
  function Report(count: string, date: string, rows: seq<Holding>): Node {
    Dict([Entry("COUNT_", Str(count)), Entry("ENDDATE_", Str(date)), Entry("list", List(HoldingNodes(rows)))])
  }

  /** The report with its keys in the second copy's order. */
  function ReportReordered(count: string, date: string, rows: seq<Holding>): Node {
    Dict([Entry("ENDDATE_", Str(date)), Entry("COUNT_", Str(count)), Entry("list", List(HoldingNodes(rows)))])
  }

  function Top0(): Holding { Holding("华夏上证50ETF", "0.36%", "10,249.64万股") }
  function Top1(): Holding { Holding("中证上海国企交易", "0.17%", "4,838.55万股") }
  function Top2(): Holding { Holding("华泰柏瑞沪深300", "0.12%", "3,451.88万股") }

  /** The seventeen rows both copies list in the same order. */
  function Others(): seq<Holding> {
    [ Holding("上证180ETF", "0.10%", "2,720.52万股"),
      Holding("华夏沪深300交易", "0.09%", "2,520.55万股"),
      Holding("鹏华银行分级", "0.09%", "2,495.02万股"),
      Holding("嘉实沪深300交易型开放式指数", "0.09%", "2,479.23万股"),
      Holding("上证上海改革发展主题交易型开放式指数发起式", "0.07%", "2,106.04万股"),
      Holding("工银瑞信上证50交易型开放式指数", "0.07%", "1,980.10万股"),
      Holding("上证180金融", "0.07%", "1,940.16万股"),
      Holding("华泰柏瑞量化增强混合", "0.04%", "1,188.52万股"),
      Holding("博时沪深300指数", "0.03%", "842.68万股"),
      Holding("华宝中证银行交易", "0.03%", "842.65万股"),
      Holding("易方达沪深300ETF", "0.03%", "835.81万股"),
      Holding("嘉实基本面50指数(LOF)", "0.02%", "607.91万股"),
      Holding("平安沪深300交易型开放式指数", "0.02%", "504.90万股"),
      Holding("华安中证银行指数分级", "0.02%", "495.22万股"),
      Holding("国寿安保沪深300交易型开放式指数", "0.02%", "451.43万股"),
      Holding("天弘中证银行指数", "0.01%", "404.96万股"),
      Holding("兴全沪深300指数", "0.01%", "399.89万股") ]
  }

  function J1(): Node {
    Report("392", "2019-06-30", [Top0(), Top1(), Top2()] + Others())
  }

  function J2(): Node {
    ReportReordered("392", "2019-06-30", [Top1(), Top2(), Top0()] + Others())
  }

  // ---------------------------------------------------------------------
  // Facts about any report of this shape

  lemma {:induction false} HoldingWellFormed(h: Holding)
    ensures WellFormed(HoldingNode(h)) && StrEntries(HoldingNode(h).entries)
    ensures ScalarEntries(HoldingNode(h).entries)
  {
  }

  lemma {:induction false} HoldingNodesAppend(p: seq<Holding>, q: seq<Holding>)
    ensures HoldingNodes(p + q) == HoldingNodes(p) + HoldingNodes(q)
  {
  }

  lemma {:induction false} RotateThree<T>(a: T, b: T, c: T, t: seq<T>)
    ensures multiset([a, b, c] + t) == multiset([b, c, a] + t)
  {
  }

  /** Rotating the first three rows permutes the row documents. */
  lemma {:induction false} RotatedRows(x: Holding, y: Holding, z: Holding, rest: seq<Holding>)
    ensures multiset(HoldingNodes([x, y, z] + rest)) == multiset(HoldingNodes([y, z, x] + rest))
  {
    HoldingNodesAppend([x, y, z], rest);
    HoldingNodesAppend([y, z, x], rest);
    assert HoldingNodes([x, y, z]) == [HoldingNode(x), HoldingNode(y), HoldingNode(z)];
    assert HoldingNodes([y, z, x]) == [HoldingNode(y), HoldingNode(z), HoldingNode(x)];
    RotateThree(HoldingNode(x), HoldingNode(y), HoldingNode(z), HoldingNodes(rest));
  }

  lemma {:induction false} ReportWellFormed(count: string, date: string, rows: seq<Holding>)
    ensures WellFormed(Report(count, date, rows)) && WellFormed(ReportReordered(count, date, rows))
  {
    var xs := HoldingNodes(rows);
    forall i | 0 <= i < |xs| ensures WellFormed(xs[i]) {
      HoldingWellFormed(rows[i]);
    }
  }

  /** Three entries, the first two in the opposite order: the
      dictionaries are rearrangements of each other when their values are. */
  lemma {:induction false} FirstTwoSwapped(d: seq<Entry>, e: seq<Entry>)
    requires |d| == 3 && |e| == 3 && DistinctKeys(e)
    requires e[0].key == d[1].key && e[1].key == d[0].key && e[2].key == d[2].key
    requires Rearranged(d[0].value, e[1].value) && Rearranged(d[1].value, e[0].value) && Rearranged(d[2].value, e[2].value)
    ensures Rearranged(Dict(d), Dict(e))
  {
    EntriesRearrangedAt(d, e, [1, 0, 2]);
  }

  /** Swapping the first two of three entries, and rearranging the third
      value, rearranges the dictionary. */
  lemma {:induction false} FirstTwoSwappedAt(k0: string, a: Node, k1: string, b: Node, k2: string, c: Node, c': Node)
    requires k0 != k1 && k1 != k2 && k0 != k2
    requires WellFormed(a) && WellFormed(b) && Rearranged(c, c')
    ensures Rearranged(Dict([Entry(k0, a), Entry(k1, b), Entry(k2, c)]), Dict([Entry(k1, b), Entry(k0, a), Entry(k2, c')]))
  {
    PyEqReflexive(a);
    PyEqRearranged(a, a);
    PyEqReflexive(b);
    PyEqRearranged(b, b);
    FirstTwoSwapped([Entry(k0, a), Entry(k1, b), Entry(k2, c)], [Entry(k1, b), Entry(k0, a), Entry(k2, c')]);
  }

  lemma {:induction false} RowsWellFormed(rows: seq<Holding>)
    ensures forall i :: 0 <= i < |rows| ==> WellFormed(HoldingNodes(rows)[i])
    ensures forall i :: 0 <= i < |rows| ==> HoldingNodes(rows)[i].Dict? && StrEntries(HoldingNodes(rows)[i].entries)
  {
    forall i | 0 <= i < |rows|
      ensures WellFormed(HoldingNodes(rows)[i]) && HoldingNodes(rows)[i].Dict? && StrEntries(HoldingNodes(rows)[i].entries)
    {
      HoldingWellFormed(rows[i]);
    }
  }

  /** The two key orders with permuted rows are rearrangements of each
      other. */
  lemma {:induction false} ReportsRearranged(count: string, date: string, rows: seq<Holding>, rows': seq<Holding>)
    requires multiset(HoldingNodes(rows)) == multiset(HoldingNodes(rows'))
    ensures Rearranged(Report(count, date, rows), ReportReordered(count, date, rows'))
  {
    var xs, ys := HoldingNodes(rows), HoldingNodes(rows');
    RowsWellFormed(rows);
    PermutationRearranged(xs, ys);
    FirstTwoSwappedAt("COUNT_", Str(count), "ENDDATE_", Str(date), "list", List(xs), List(ys));
  }

  lemma {:induction false} ReportOrdered(count: string, date: string, rows: seq<Holding>)
    ensures Ordered(Report(count, date, rows)).Ok?
  {
    var xs := HoldingNodes(rows);
    RowsWellFormed(rows);
    StrDictsOrdered(xs);
    var d := Report(count, date, rows).entries;
    assert d == [Entry("COUNT_", Str(count)), Entry("ENDDATE_", Str(date)), Entry("list", List(xs))];
    OrderedDictShape(d);
  }

  /** With no escaping `eval` exception the fallback accepts the two key
      orders with permuted rows as well. */
  lemma {:induction false} ReportsFallback(count: string, date: string, rows: seq<Holding>, rows': seq<Holding>, ev: Eval)
    requires NeverRaises(ev)
    requires multiset(HoldingNodes(rows)) == multiset(HoldingNodes(rows'))
    ensures ObjCmp(Report(count, date, rows), ReportReordered(count, date, rows'), ev) == Ok(true)
  {
    var xs, ys := HoldingNodes(rows), HoldingNodes(rows');
    ReportWellFormed(count, date, rows);
    forall i, j | 0 <= i < |xs| && 0 <= j < |ys| ensures ObjCmp(xs[i], ys[j], ev).Ok? {
      HoldingWellFormed(rows[i]);
      ScalarDictNeverRaises(xs[i].entries, ys[j], ev);
    }
    FallbackPermutation(xs, ys, ev);
    assert ValueCmp(List(xs), List(ys), ev) == ObjCmp(List(xs), List(ys), ev);
    DictCmpAcceptsAt(Report(count, date, rows).entries, ReportReordered(count, date, rows').entries, [1, 0, 2], ev);
  }

  // ---------------------------------------------------------------------
  // The fixture itself

  /** The two reports compare equal through their canonical forms. */
  lemma {:induction false} J1J2(ev: Eval)
    ensures RecordCompare(J1(), J2(), ev)
  {
    var rows, rows' := [Top0(), Top1(), Top2()] + Others(), [Top1(), Top2(), Top0()] + Others();
    RotatedRows(Top0(), Top1(), Top2(), Others());
    ReportWellFormed("392", "2019-06-30", rows);
    ReportWellFormed("392", "2019-06-30", rows');
    ReportsRearranged("392", "2019-06-30", rows, rows');
    ReportOrdered("392", "2019-06-30", rows);
    RecordCompareRearranged(J1(), J2(), ev);
  }

  /** The fallback also accepts them, provided `eval` raises nothing that
      escapes on their strings. */
  lemma {:induction false} J1J2Fallback(ev: Eval)
    requires NeverRaises(ev)
    ensures ObjCmp(J1(), J2(), ev) == Ok(true)
  {
    RotatedRows(Top0(), Top1(), Top2(), Others());
    ReportsFallback("392", "2019-06-30", [Top0(), Top1(), Top2()] + Others(), [Top1(), Top2(), Top0()] + Others(), ev);
  }
}
