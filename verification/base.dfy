/** Small shared vocabulary: an optional value and the "first element that
    satisfies a test" search that both dictionary membership and the
    username scan of the ledger are built on. */
module Base {

  /** Python's `None` or a value. */
  datatype Option<+T> = None | Some(value: T)

  /** The position of the first element of `s` satisfying `p`, scanning from
      the front as a `for` loop over a list or a dict's items does. */
  function FirstIndex<T>(s: seq<T>, p: T -> bool): (r: Option<nat>)
    ensures r.Some? ==> r.value < |s| && p(s[r.value])
    ensures r.Some? ==> forall j :: 0 <= j < r.value ==> !p(s[j])
    ensures r.None? <==> forall j :: 0 <= j < |s| ==> !p(s[j])
  {
    if |s| == 0 then None
    else if p(s[0]) then Some(0)
    else match FirstIndex(s[1..], p)
      case None => None
      case Some(i) => Some(i + 1)
  }

  /** Two sequences that agree element-wise on the test have the same first
      hit: the search only depends on the answers of the test. */
  lemma FirstIndexSameAnswers<T, U>(s: seq<T>, p: T -> bool, t: seq<U>, q: U -> bool)
    requires |s| == |t|
    requires forall i :: 0 <= i < |s| ==> p(s[i]) == q(t[i])
    ensures FirstIndex(s, p) == FirstIndex(t, q)
  {
  }
}
