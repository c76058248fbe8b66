/**
  The second fixture pair: a validation-error report whose `errors` list
  mixes dictionaries with scalars, compared with a copy whose keys, list
  items and inner dictionary keys come in other orders, and in which `1`
  and `True` come in the opposite order.
 */
module ErrorsFixture {
  import opened Wrappers
  import opened Nodes
  import opened CanonicalOrder
  import opened Sorting
  import opened Canonicalise
  import opened Fallback
  import opened Compare

  function ErrorField(error: string, field: string): Node {
    Dict([Entry("error", Str(error)), Entry("field", Str(field))])
  }

  function FieldError(field: string, error: string): Node {
    Dict([Entry("field", Str(field)), Entry("error", Str(error))])
  }

  /** The `errors` lists of the two reports, with the strings left as
      parameters so that the proofs below reason symbolically. */
  function ErrorsLeft(inv: string, email: string, req: string, name: string, a: string): seq<Node> {
    [ErrorField(inv, email), ErrorField(req, name), Str(a), Int(1), Bool(true)]
  }

  function ErrorsRight(inv: string, email: string, req: string, name: string, a: string): seq<Node> {
    [Str(a), Bool(true), FieldError(name, req), ErrorField(inv, email), Int(1)]
  }

  function ErrorsReport(inv: string, email: string, req: string, name: string, a: string): Node {
    Dict([Entry("errors", List(ErrorsLeft(inv, email, req, name, a))), Entry("success", Bool(false))])
  }

  function ErrorsReportReordered(inv: string, email: string, req: string, name: string, a: string): Node {
    Dict([Entry("success", Bool(false)), Entry("errors", List(ErrorsRight(inv, email, req, name, a)))])
  }

  function J3(): Node {
    ErrorsReport("invalid", "email", "required", "name", "a")
  }

  function J4(): Node {
    ErrorsReportReordered("invalid", "email", "required", "name", "a")
  }

  lemma {:induction false} DictIsList(d: seq<Entry>)
    requires Ordered(Dict(d)).Ok?
    ensures Ordered(Dict(d)).value.CList?
  {
  }

  lemma {:induction false} ErrorsUnordered(inv: string, email: string, req: string, name: string, a: string)
    ensures Ordered(List(ErrorsLeft(inv, email, req, name, a))).Err?
  {
    var xs := ErrorsLeft(inv, email, req, name, a);
    var cs := OrderedItems(xs);
    if cs.Ok? {
      assert cs.value[0] == Ordered(xs[0]).value;
      DictIsList(xs[0].entries);
      assert cs.value[2] == CStr(a);
      assert !Comparable(cs.value[0], cs.value[2]);
      assert !AllComparable(cs.value);
    }
  }

  /** An `{error, field}` dictionary matches itself and its copy with the
      keys the other way round. */
  lemma {:induction false} SameFieldErrors(x: Node, y: Node, error: string, field: string, ev: Eval)
    requires Quiet(ev, error) && Quiet(ev, field)
    requires x == ErrorField(error, field) && (y == ErrorField(error, field) || y == FieldError(field, error))
    ensures ObjCmp(x, y, ev) == Ok(true)
  {
    QuietPairsMatch(x.entries, y.entries, ev);
  }

  /** Two such dictionaries with different errors do not match. */
  lemma {:induction false} DifferentErrors(x: Node, y: Node, e1: string, f1: string, e2: string, f2: string, ev: Eval)
    requires e1 != e2
    requires x == ErrorField(e1, f1) && (y == ErrorField(e2, f2) || y == FieldError(f2, e2))
    ensures ObjCmp(x, y, ev) == Ok(false)
  {
    var p := if y == ErrorField(e2, f2) then 0 else 1;
    FirstStrDiffers(x.entries, y.entries, p, ev);
  }

  lemma {:induction false} ErrorsFound0(inv: string, email: string, req: string, name: string, a: string, ev: Eval)
    requires inv != req && Quiet(ev, inv) && Quiet(ev, email)
    ensures Found(ErrorsLeft(inv, email, req, name, a)[0], ErrorsRight(inv, email, req, name, a), ev) == Ok(true)
  {
    var xs, ys := ErrorsLeft(inv, email, req, name, a), ErrorsRight(inv, email, req, name, a);
    DifferentErrors(xs[0], ys[2], inv, email, req, name, ev);
    SameFieldErrors(xs[0], ys[3], inv, email, ev);
    assert ObjCmp(xs[0], ys[0], ev) == Ok(false);
    assert ObjCmp(xs[0], ys[1], ev) == Ok(false);
    FoundAt(xs[0], ys, 3, ev);
  }

  lemma {:induction false} ErrorsFound1(inv: string, email: string, req: string, name: string, a: string, ev: Eval)
    requires Quiet(ev, req) && Quiet(ev, name)
    ensures Found(ErrorsLeft(inv, email, req, name, a)[1], ErrorsRight(inv, email, req, name, a), ev) == Ok(true)
  {
    var xs, ys := ErrorsLeft(inv, email, req, name, a), ErrorsRight(inv, email, req, name, a);
    SameFieldErrors(xs[1], ys[2], req, name, ev);
    assert ObjCmp(xs[1], ys[0], ev) == Ok(false);
    assert ObjCmp(xs[1], ys[1], ev) == Ok(false);
    FoundAt(xs[1], ys, 2, ev);
  }

  lemma {:induction false} ErrorsFoundScalars(inv: string, email: string, req: string, name: string, a: string, ev: Eval)
    ensures Found(ErrorsLeft(inv, email, req, name, a)[2], ErrorsRight(inv, email, req, name, a), ev) == Ok(true)
    ensures Found(ErrorsLeft(inv, email, req, name, a)[3], ErrorsRight(inv, email, req, name, a), ev) == Ok(true)
    ensures Found(ErrorsLeft(inv, email, req, name, a)[4], ErrorsRight(inv, email, req, name, a), ev) == Ok(true)
  {
    var xs, ys := ErrorsLeft(inv, email, req, name, a), ErrorsRight(inv, email, req, name, a);
    FoundAt(xs[2], ys, 0, ev);
    assert ObjCmp(xs[3], ys[0], ev) == Ok(false);
    FoundAt(xs[3], ys, 1, ev);
    assert ObjCmp(xs[4], ys[0], ev) == Ok(false);
    FoundAt(xs[4], ys, 1, ev);
  }

  lemma {:induction false} ErrorsFound(inv: string, email: string, req: string, name: string, a: string, ev: Eval)
    requires inv != req && Quiet(ev, inv) && Quiet(ev, email) && Quiet(ev, req) && Quiet(ev, name)
    ensures ListCmp(ErrorsLeft(inv, email, req, name, a), List(ErrorsRight(inv, email, req, name, a)), ev) == Ok(true)
  {
    var xs, ys := ErrorsLeft(inv, email, req, name, a), ErrorsRight(inv, email, req, name, a);
    ErrorsFound0(inv, email, req, name, a, ev);
    ErrorsFound1(inv, email, req, name, a, ev);
    ErrorsFoundScalars(inv, email, req, name, a, ev);
    AllFoundSpec(xs, ys, ev);
    assert Len(List(ys)) == Ok(5);
  }

  /** The first report cannot be canonicalised: its `errors` list holds
      a dictionary and a string, which `<` cannot order. */
  lemma {:induction false} ErrorsReportUnordered(inv: string, email: string, req: string, name: string, a: string)
    ensures Ordered(ErrorsReport(inv, email, req, name, a)).Err?
  {
    ErrorsUnordered(inv, email, req, name, a);
  }

  /** The two reports are not `==`: their `errors` lists differ at the
      first position. */
  lemma {:induction false} ErrorsReportsDiffer(inv: string, email: string, req: string, name: string, a: string)
    ensures !PyEq(ErrorsReport(inv, email, req, name, a), ErrorsReportReordered(inv, email, req, name, a))
  {
    var xs, ys := ErrorsLeft(inv, email, req, name, a), ErrorsRight(inv, email, req, name, a);
    var d, e := ErrorsReport(inv, email, req, name, a).entries, ErrorsReportReordered(inv, email, req, name, a).entries;
    assert Get(e, "errors") == List(ys);
    assert !PyEq(xs[0], ys[0]);
    assert !PyEq(d[0].value, Get(e, d[0].key));
  }

  /** The fallback accepts the two reports. */
  lemma {:induction false} ErrorsReportFallback(inv: string, email: string, req: string, name: string, a: string, ev: Eval)
    requires inv != req && Quiet(ev, inv) && Quiet(ev, email) && Quiet(ev, req) && Quiet(ev, name)
    ensures ObjCmp(ErrorsReport(inv, email, req, name, a), ErrorsReportReordered(inv, email, req, name, a), ev) == Ok(true)
  {
    var d, e := ErrorsReport(inv, email, req, name, a).entries, ErrorsReportReordered(inv, email, req, name, a).entries;
    ErrorsFound(inv, email, req, name, a, ev);
    assert Get(e, "errors") == List(ErrorsRight(inv, email, req, name, a));
    assert Get(e, "success") == Bool(false);
    KeySetTwo(d);
    KeySetTwo(e);
    DictCmpPair(d, e, ev);
  }

  /** The two reports compare equal, through the fallback. */
  lemma {:induction false} ErrorRecords(inv: string, email: string, req: string, name: string, a: string, ev: Eval)
    requires inv != req && Quiet(ev, inv) && Quiet(ev, email) && Quiet(ev, req) && Quiet(ev, name)
    ensures RecordCompare(ErrorsReport(inv, email, req, name, a), ErrorsReportReordered(inv, email, req, name, a), ev)
  {
    ErrorsReportsDiffer(inv, email, req, name, a);
    ErrorsReportUnordered(inv, email, req, name, a);
    ErrorsReportFallback(inv, email, req, name, a, ev);
  }

  lemma J3Unordered()
    ensures Ordered(J3()).Err?
  {
    ErrorsReportUnordered("invalid", "email", "required", "name", "a");
  }

  lemma J3J4Differ()
    ensures !PyEq(J3(), J4())
  {
    ErrorsReportsDiffer("invalid", "email", "required", "name", "a");
  }

  /** The fixture's reports compare equal whenever `eval` raises nothing
      that escapes on the four strings it is given. */
  lemma {:induction false} J3J4(ev: Eval)
    requires !ev("invalid").Raised? && !ev("email").Raised? && !ev("required").Raised? && !ev("name").Raised?
    ensures RecordCompare(J3(), J4(), ev)
  {
    ErrorRecords("invalid", "email", "required", "name", "a", ev);
  }

  /** The fallback alone accepts the fixture's reports. */
  lemma {:induction false} J3J4Fallback(ev: Eval)
    requires NeverRaises(ev)
    ensures ObjCmp(J3(), J4(), ev) == Ok(true)
  {
    ErrorsReportFallback("invalid", "email", "required", "name", "a", ev);
  }
}
