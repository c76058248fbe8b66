# Document comparison of `DataCompareOperator`, in Dafny

This project models the comparison engine of the Airflow operator
`DataCompareOperator` (`plugins/operators/data_compare_operator.py`). The
engine decides whether two runs of a test produced the same result
document. It does this in three layers.

1. **`ordered`** canonicalises a JSON-like document. A dictionary becomes
   the sorted list of its `(key, ordered(value))` tuples. A list becomes the
   sorted list of its items' canonical forms. `sorted` raises `TypeError`
   when Python's `<` cannot compare two items.
2. **`recordCompare`** tries Python's `==` first, then `==` on the canonical
   forms. When canonicalisation raises, the structural fallback
   `my_obj_cmp` / `my_list_cmp` decides. The clause `finally: return res`
   turns any exception of the fallback into the `False` left by the first
   test.
3. **`execute`** pairs every record of one run's collection with every
   record of the other's. It compares the result payloads of matching
   pairs and folds the verdicts into one Boolean per test case.

The Dafny modules follow these layers.

- `Wrappers` holds `Option` and `Result`.
- `Seqs` holds sequence helpers: removing one position, and its effect on the multiset.
- `Nodes` holds the document datatype, Python's `==` on it, and the
  relation "b is a rearrangement of a" (lists permuted and dictionaries
  re-keyed, at any depth).
- `CanonicalOrder` holds the canonical values (`Canon`: tuples are
  `CPair`) and Python's `<` on them. It returns `None` where Python raises
  `TypeError`.
- `Sorting` models `sorted` as an insertion sort.
- `Canonicalise` models `ordered`.
- `Fallback` models `my_obj_cmp` and `my_list_cmp`, including
  `str.strip('%')` and what `eval` can do to the outcome.
- `Compare` models `recordCompare`.
- `Aggregate` models the verdict fold of `execute`.
- `Quirks` gathers consequences of the code as written that a reader may
  not expect.
- `HoldingsFixture`, `ErrorsFixture`, `NestedFixture` and `CombinedFixture`
  state the fixture pairs built by `genTwoCase` and prove what
  `recordCompare` returns on them.

Several behaviours of the code may surprise a reader; the model follows
the code in each:

- Matching in `my_list_cmp` does not consume candidates. A right-hand item
  may match several left-hand items, and nothing checks the right-hand
  side's items. So `[a, a, b]` matches `[a, b, b]` and `[a, b, c]`, but
  `[a, b, c]` does not match `[a, a, b]`.
- The comparison is not symmetric once the fallback decides. It is
  symmetric when both records canonicalise.
- Scalar dictionary values are compared with plain `!=`. The "is numeric"
  flag computed through `eval` is never read. Only an exception of `eval`
  other than SyntaxError or NameError changes the outcome: when the two
  strings are equal, it escapes `my_obj_cmp`.
- The aggregation filters on `paramData` being present, not on the result
  payload. It also filters on the runner ids of the two runs.
- There is no recursion-depth guard.
- `True == 1` and `False == 0`, as in Python.

## Model

| member | source | states |
|---|---|---|
| Nodes.Get | plugins/operators/data_compare_operator.py:93-94 | `dict.get(k)` is None for a missing key and the value stored under `k` in a dictionary with distinct keys |
| Nodes.PyEqReflexive | plugins/operators/data_compare_operator.py:42-45 | Python's `==` holds between a well-formed document and itself |
| Nodes.PyEqRearranged | plugins/operators/data_compare_operator.py:42 | documents Python finds `==` (dictionaries compared ignoring entry order) are rearrangements of each other |
| Nodes.PermutationRearranged | plugins/operators/data_compare_operator.py:36 | any permutation of a list's items is a rearrangement of the list |
| CanonicalOrder.FirstDiff | plugins/operators/data_compare_operator.py:34-36 | lists and tuples compare at the first position whose items are not `==`: every earlier pair is `==` and that pair is not |
| CanonicalOrder.LtIrreflexive | plugins/operators/data_compare_operator.py:34-36 | `a < b` is never True for `==` canonical values |
| CanonicalOrder.LtAsymmetric | plugins/operators/data_compare_operator.py:34-36 | if `a < b` is True then `b < a` is defined and False |
| CanonicalOrder.LtTotal | plugins/operators/data_compare_operator.py:34-36 | if `a < b` is defined and False then `b < a` is True or `a == b` |
| CanonicalOrder.LtTransitive | plugins/operators/data_compare_operator.py:34-36 | Python's `<` on canonical values is transitive |
| CanonicalOrder.CEqTransitive | plugins/operators/data_compare_operator.py:49 | `==` on canonical values is transitive |
| Sorting.Insert | plugins/operators/data_compare_operator.py:34-36 | inserting an item adds exactly that item to the multiset of the list |
| Sorting.Sort | plugins/operators/data_compare_operator.py:34-36 | `sorted` returns a permutation of its input |
| Sorting.SortSorted | plugins/operators/data_compare_operator.py:34-36 | when all items are comparable, the result of `sorted` is in ascending order |
| Sorting.AdjacentLeComparable | plugins/operators/data_compare_operator.py:34-36 | a list whose neighbouring items are in order under `<` is in order and pairwise comparable |
| Sorting.SortOfSorted | plugins/operators/data_compare_operator.py:34-36 | sorting an ascending list leaves it unchanged |
| Sorting.SortPermEquiv | plugins/operators/data_compare_operator.py:34-36 | if a list is pairwise comparable, so is every permutation of it up to `==`, and the two sort to lists that are `==` |
| Sorting.PermEquivComparable | plugins/operators/data_compare_operator.py:34-36 | whether `sorted` raises does not depend on the order of the items |
| Canonicalise.Ordered | plugins/operators/data_compare_operator.py:32-38 | a canonical form has every list in it sorted and is never a bare tuple |
| Canonicalise.OrderedItems | plugins/operators/data_compare_operator.py:36 | a list's items canonicalise exactly when each item does, and position by position give its canonical form |
| Canonicalise.OrderedEntries | plugins/operators/data_compare_operator.py:34 | a dictionary's entries canonicalise exactly when each value does; entry `i` gives the tuple `(key_i, ordered(value_i))` |
| Canonicalise.OrderedListShape | plugins/operators/data_compare_operator.py:35-36 | `ordered(list)` succeeds exactly when every item canonicalises and the canonical items are pairwise comparable; the result is a sorted permutation of them |
| Canonicalise.OrderedDictShape | plugins/operators/data_compare_operator.py:33-34 | `ordered(dict)` succeeds exactly when every value canonicalises; the result is a permutation of the entry tuples with keys strictly ascending |
| Canonicalise.OrderedDictKeys | plugins/operators/data_compare_operator.py:33-34 | `ordered(dict)` has one tuple per entry, and every tuple's key is a key of the dictionary |
| Canonicalise.StrEntriesOrdered | plugins/operators/data_compare_operator.py:33-34 | a dictionary of string values always canonicalises |
| Canonicalise.StrDictsOrdered | plugins/operators/data_compare_operator.py:35-36 | a list of dictionaries of string values always canonicalises |
| Canonicalise.OrderedEmptyCollide | plugins/operators/data_compare_operator.py:32-38 | `{}` and `[]` both canonicalise to `[]` |
| Canonicalise.SortOrRaiseAgree | plugins/operators/data_compare_operator.py:34-36 | sorting two permutations of each other up to `==` raises for both or returns `==` lists |
| Canonicalise.OrderedItemsRearranged | plugins/operators/data_compare_operator.py:36 | the canonical items of a list and of a rearrangement of it both exist or both do not, and are permutations of each other up to `==` |
| Canonicalise.OrderedEntriesRearranged | plugins/operators/data_compare_operator.py:34 | the same for the entry tuples of a dictionary and of a rearrangement of it |
| Canonicalise.OrderedRearranged | plugins/operators/data_compare_operator.py:32-38 | rearranging lists and dictionaries at any depth changes neither whether `ordered` raises nor its result up to `==` |
| Canonicalise.OrderedPyEq | plugins/operators/data_compare_operator.py:32-38 | documents Python finds `==` canonicalise alike |
| Canonicalise.OrderedPermutation | plugins/operators/data_compare_operator.py:36 | permuting a list's items never changes its canonical form up to `==` |
| Canonicalise.OrderedIdempotent | plugins/operators/data_compare_operator.py:32-38 | canonicalising a canonical form again gives it back |
| Fallback.StripPercent | plugins/operators/data_compare_operator.py:105-106 | `strip('%')` returns a middle slice of the string, everything cut off is '%', and a nonempty result neither starts nor ends with '%' |
| Fallback.Len | plugins/operators/data_compare_operator.py:58 | `__len__` raises exactly for None, a bool or an int, and otherwise counts what iteration yields |
| Fallback.ScalarCmp | plugins/operators/data_compare_operator.py:101-117 | after the `try` block has set or not set the `numbers` flag, a scalar value comparison returns `val2 == val1`, unless the values are equal strings whose stripped text makes `eval` raise something other than SyntaxError or NameError; that exception escapes. The flag never changes the outcome |
| Fallback.ObjCmpKinds | plugins/operators/data_compare_operator.py:74-122 | a list against a non-list, a dictionary against a non-dictionary, and dictionaries whose key sets differ either way compare false; a scalar on the left is compared with `==` |
| Fallback.FoundSpec | plugins/operators/data_compare_operator.py:61-67 | the inner loop reports a match exactly when some candidate compares true after candidates that all compare false, and no match exactly when all compare false |
| Fallback.FoundMatches | plugins/operators/data_compare_operator.py:61-67 | when no comparison raises, the inner loop reports whether some candidate compares true |
| Fallback.AllFoundSpec | plugins/operators/data_compare_operator.py:61-72 | the outer loop succeeds exactly when every item is found, and fails only for an item that is not found |
| Fallback.AllFoundMatches | plugins/operators/data_compare_operator.py:61-72 | when no comparison raises, the outer loop returns whether every item has a match |
| Fallback.ListCmpTrue | plugins/operators/data_compare_operator.py:57-72 | two lists compare true only if they have the same length and every left item matches some right item |
| Fallback.ListCmpMatches | plugins/operators/data_compare_operator.py:57-72 | when no comparison raises, two lists compare true exactly when lengths agree and every left item has a match |
| Fallback.DictCmpSpec | plugins/operators/data_compare_operator.py:92-117 | the key loop succeeds exactly when every value matches the value under its key, and fails only for a value that does not |
| Fallback.DictCmpMatches | plugins/operators/data_compare_operator.py:81-124 | two dictionaries compare true exactly when their key sets are equal and every left value matches the right value under its key |
| Fallback.ObjCmpPyEq | plugins/operators/data_compare_operator.py:74-124 | the fallback never returns False for documents Python finds `==` |
| Fallback.ValueCmpPyEq | plugins/operators/data_compare_operator.py:95-117 | the per-value step never returns False for values Python finds `==` |
| Fallback.ScalarDictNeverRaises | plugins/operators/data_compare_operator.py:101-117 | when `eval` raises nothing uncaught, comparing a dictionary of scalars with anything does not raise |
| Fallback.ScalarDictAccepts | plugins/operators/data_compare_operator.py:81-124 | under such an `eval`, a dictionary of scalars matches anything Python finds `==` to it |
| Fallback.FallbackPermutation | plugins/operators/data_compare_operator.py:57-72 | when no item comparison raises, a list matches every permutation of itself |
| Fallback.DictCmpAcceptsAt | plugins/operators/data_compare_operator.py:81-124 | two dictionaries of the same size with distinct keys match when each left entry has a right entry with the same key whose value it matches |
| Compare.RecordCompareReflexive | plugins/operators/data_compare_operator.py:42-45 | a record always matches itself |
| Compare.RecordCompareCanonical | plugins/operators/data_compare_operator.py:42-50 | when both records canonicalise, the verdict is exactly whether the canonical forms are `==` |
| Compare.RecordCompareSymmetric | plugins/operators/data_compare_operator.py:41-50 | when both records canonicalise, the verdict does not depend on the order of the records |
| Compare.RecordCompareRearranged | plugins/operators/data_compare_operator.py:41-50 | a record that canonicalises matches every rearrangement of itself at any depth |
| Compare.ListDictCanonDiffer | plugins/operators/data_compare_operator.py:34-36 | a list and a dictionary, not both empty, never have `==` canonical forms |
| Compare.RecordCompareListDict | plugins/operators/data_compare_operator.py:42-50 | when both canonicalise, a list record matches a dictionary record exactly when both are empty |
| Quirks.NoneUnorderable | plugins/operators/data_compare_operator.py:36 | a list holding None and any other item cannot be canonicalised |
| Quirks.DuplicateMatchesTwice | plugins/operators/data_compare_operator.py:57-72 | `[a, a, b]` matches `[a, b, b]` |
| Quirks.UnmatchedRightItem | plugins/operators/data_compare_operator.py:57-72 | `[a, a, b]` matches `[a, b, c]` |
| Quirks.UnmatchedLeftItem | plugins/operators/data_compare_operator.py:57-72 | `[a, b, c]` does not match `[a, a, b]` when `c` is neither `a` nor `b` |
| Quirks.RecordsAcceptNonRearrangement | plugins/operators/data_compare_operator.py:41-72 | `recordCompare` accepts `[None, a, a, b]` against `[None, a, b, c]` |
| Quirks.RecordsRejectReversed | plugins/operators/data_compare_operator.py:41-72 | and rejects the same lists the other way round |
| Fallback.PercentNotNumeric | plugins/operators/data_compare_operator.py:101-117 | a number written with a trailing '%' against the same number: `eval` returns an int for both and `numbers` is set, yet the values compare unequal |
| Quirks.ListAgainstNumber | plugins/operators/data_compare_operator.py:95-97 | a list value facing a number under the same key makes the fallback raise, since the number has no length |
| Quirks.RaiseEscapes | plugins/operators/data_compare_operator.py:57-67 | when comparing `p` with `q` raises, comparing `[p, None, q]` with `[q, None, p]` raises too: the first candidate tried for `p` is `q` |
| Quirks.RaiseAbortsSearch | plugins/operators/data_compare_operator.py:48-67 | when `p != q` and comparing `p` with `q` raises, `[p, None, q]` is rejected against its own permutation `[q, None, p]` |
| Quirks.ListAgainstNumberAborts | plugins/operators/data_compare_operator.py:48-67 | for instance with `p` holding a list where `q` holds a number |
| Aggregate.Note | plugins/operators/data_compare_operator.py:151-157 | recording a result keeps the first verdict of a test case, lets a later False override it and never turns a False back into True; other test cases are untouched |
| Aggregate.VisitRow | plugins/operators/data_compare_operator.py:140-157 | the inner loop extends the verdicts of all pairs before row `i` to those of all pairs before row `i + 1` |
| Aggregate.TracksAll | plugins/operators/data_compare_operator.py:138-157 | after the last row, the tracked verdicts are the verdicts over all compared pairs |
| Aggregate.Execute | plugins/operators/data_compare_operator.py:138-157 | a test case has an entry exactly when some pair passing the filter was compared for it, and the entry is True exactly when every such pair matched |
| HoldingsFixture.ReportsRearranged | plugins/operators/data_compare_operator.py:162-373 | two reports with swapped top-level keys and permuted rows are rearrangements of each other |
| HoldingsFixture.ReportOrdered | plugins/operators/data_compare_operator.py:162-267 | such a report always canonicalises |
| HoldingsFixture.ReportsFallback | plugins/operators/data_compare_operator.py:162-373 | when `eval` raises nothing uncaught, the fallback also accepts two such reports |
| HoldingsFixture.J1J2 | plugins/operators/data_compare_operator.py:162-373 | `recordCompare(j1, j2)` is True |
| HoldingsFixture.J1J2Fallback | plugins/operators/data_compare_operator.py:162-373 | the fallback accepts `j1` against `j2` too, when `eval` raises nothing uncaught |
| ErrorsFixture.J3Unordered | plugins/operators/data_compare_operator.py:374-383 | `ordered(j3)` raises: its error list mixes dictionaries, a string, an int and a bool |
| ErrorsFixture.ErrorsReportUnordered | plugins/operators/data_compare_operator.py:374-383 | every report of the `j3` shape fails to canonicalise, whatever its strings |
| ErrorsFixture.ErrorsReportsDiffer | plugins/operators/data_compare_operator.py:374-393 | such a report is never `==` to its reordering |
| ErrorsFixture.J3J4Differ | plugins/operators/data_compare_operator.py:374-393 | `j3 == j4` is False |
| ErrorsFixture.ErrorsReportFallback | plugins/operators/data_compare_operator.py:374-393 | the fallback accepts every report of this shape against its reordering when the "invalid" and "required" strings differ and `eval` raises nothing uncaught on the four strings |
| ErrorsFixture.ErrorRecords | plugins/operators/data_compare_operator.py:374-393 | so `recordCompare` accepts such a report against its reordering, through the fallback |
| ErrorsFixture.J3J4 | plugins/operators/data_compare_operator.py:374-393 | `recordCompare(j3, j4)` is True when `eval` raises nothing uncaught on "invalid", "email", "required" and "name" |
| ErrorsFixture.J3J4Fallback | plugins/operators/data_compare_operator.py:374-393 | the fallback accepts `j3` against `j4` whenever `eval` raises nothing uncaught |
| NestedFixture.ABRearranged | plugins/operators/data_compare_operator.py:418-424 | `b` is a rearrangement of `a`, two levels deep |
| NestedFixture.AOrdered | plugins/operators/data_compare_operator.py:418-423 | `a` canonicalises |
| NestedFixture.AB | plugins/operators/data_compare_operator.py:418-424 | `recordCompare(a, b)` is True whatever `eval` does |
| NestedFixture.ABFallback | plugins/operators/data_compare_operator.py:418-424 | the fallback accepts `a` against `b` too, when `eval` raises nothing uncaught |
| CombinedFixture.BundleUnordered | plugins/operators/data_compare_operator.py:429-430 | a bundle whose middle part does not canonicalise does not canonicalise either |
| CombinedFixture.BundlesDiffer | plugins/operators/data_compare_operator.py:429-430 | bundles whose middle parts are not `==` are not `==` |
| CombinedFixture.BundlesFallback | plugins/operators/data_compare_operator.py:429-430 | bundles of dictionaries whose parts match pairwise under the fallback match under the fallback |
| CombinedFixture.BundlesCompare | plugins/operators/data_compare_operator.py:429-430 | bundles of three dictionaries match when their parts match pairwise under the fallback and the middle part neither canonicalises nor is `==` to its counterpart |
| CombinedFixture.R1R2 | plugins/operators/data_compare_operator.py:429-431 | `recordCompare(r1, r2)` is True when `eval` raises nothing uncaught |

## Left out

- Airflow and MongoDB plumbing is not modelled: the operator's constructor, the connection, `xcom_pull`, the collection scans and every `print`. `Aggregate.Execute` takes the two collections and the two runner ids as parameters.
- `get_ios_data`, `get_android_data` and `close_connection` are stubs or I/O and are not modelled.
- `eval` is not modelled as a Python interpreter. The parameter `ev` gives, for each stripped string, what `eval` does: it returns a value of type int, float or some other type, raises SyntaxError or NameError, or raises another exception. `eval` is taken to be deterministic and free of side effects. Because `ev` sees only the string, the model gives one outcome per string; the real `eval` also sees `my_obj_cmp`'s local variables (`k`, `val1`, `val2`, `obj1`, `obj2`, `numbers`) and the module's globals, including whatever `from utils import *` brings in, so a string such as `obj1['x']` can behave differently from call to call.
- Floating-point numbers are not modelled; numbers are integers. Strings compare by code point.
- Canonicalise.SortOrRaise: `sorted` is taken to raise exactly when some two items cannot be compared by `<`. For lists of fewer than 64 items this is exact. There CPython's sort finds the initial run by comparing neighbours, and inserts each further item by binary search, which compares it with both neighbours of its final slot. A sort that does not raise has therefore compared every neighbouring pair of its output and found it in order, and `Sorting.AdjacentLeComparable` shows that such a list is pairwise comparable. For 64 items or more, timsort's merges need not compare every neighbouring pair of the output, and the model does not say whether Python can then succeed on a list holding an incomparable pair.
- Sorting.Sort: `sorted` is modelled as a stable insertion sort, not timsort. The two agree on the result, because both are stable sorts under the same `<`.
- Aggregate.Execute: test-case and runner ids are strings, and the `KeyError` raised for a record without `paramData`, `testcaseID`, `runnerID` or `resultData` is not modelled; every record has all four fields.
- Records and documents that are not JSON-like values (Python objects other than None, bool, int, str, list and dict) are not modelled.
- Dictionary keys are strings. Python's `sorted` on tuples with equal keys would compare the values; keys of one dictionary are distinct, so that case never arises.
- The fixtures `j5` and `j6` (lines 394-417) are not stated as lemmas: `genTwoCase` builds them but never returns them.
- The code that runs the comparison at module level (lines 434-443) is I/O and is not modelled.
