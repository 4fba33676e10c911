/**
 * Page slicing of the questions list: questions[(page-1)*10 : (page-1)*10+10]
 * with Python's slice semantics, including negative bounds.
 */
module Pagination {
  /** QUESTIONS_PER_PAGE; the slice bounds spell the same number out as 10. */
  const QuestionsPerPage: nat := 10

  function Min(a: int, b: int): int { if a < b then a else b }

  /**
   * How Python normalises one bound of s[start:stop] for a sequence of
   * length n: a negative bound counts from the end, then the bound is
   * clamped to [0, n].
   */
  function SliceBound(i: int, n: nat): (r: nat)
    ensures r <= n
  {
    if i < 0 then (if i + n < 0 then 0 else i + n)
    else if i <= n then i
    else n
  }

  /** s[start:stop] with step 1: empty when the normalised bounds cross. */
  function PySlice<T>(s: seq<T>, start: int, stop: int): (r: seq<T>)
    ensures 0 <= start <= stop ==> r == s[Min(start, |s|)..Min(stop, |s|)]
    ensures -|s| <= start <= stop < 0 ==> r == s[start + |s|..stop + |s|]
    ensures |r| <= |s|
    ensures forall x :: x in r ==> x in s
  {
    var lo, hi := SliceBound(start, |s|), SliceBound(stop, |s|);
    if lo < hi then s[lo..hi] else []
  }

  /** questions[start:end] with start = (page - 1) * 10 and end = start + 10. */
  function PageSlice<T>(s: seq<T>, page: int): (r: seq<T>)
    ensures |r| <= QuestionsPerPage
    ensures forall x :: x in r ==> x in s
    ensures page >= 1 ==> r == s[Min((page - 1) * QuestionsPerPage, |s|)..Min(page * QuestionsPerPage, |s|)]
  {
    var start := (page - 1) * 10;
    var end := start + 10;
    PySlice(s, start, end)
  }

  /**
   * When a page is empty: a positive page past the end of the list, page 0
   * always, and a negative page -k unless the list holds more than 10 * k items.
   */
  lemma PageSliceEmpty<T>(s: seq<T>, page: int)
    ensures page >= 1 ==> (PageSlice(s, page) == [] <==> (page - 1) * 10 >= |s|)
    ensures page == 0 ==> PageSlice(s, page) == []
    ensures page < 0 ==> (PageSlice(s, page) == [] <==> |s| <= -page * 10)
  {
  }

  /** The pages 1 .. k, concatenated in order. */
  function Pages<T>(s: seq<T>, k: nat): seq<T>
  {
    if k == 0 then [] else Pages(s, k - 1) + PageSlice(s, k)
  }

  /**
   * Pages 1 .. k together are exactly the first 10 * k items in store
   * order: consecutive pages neither overlap nor leave gaps.
   */
  lemma {:induction false} PagesPrefix<T>(s: seq<T>, k: nat)
    ensures Pages(s, k) == s[..Min(k * QuestionsPerPage, |s|)]
  {
    if k > 0 {
      PagesPrefix(s, k - 1);
      var a, b := Min((k - 1) * 10, |s|), Min(k * 10, |s|);
      assert s[..a] + s[a..b] == s[..b];
    }
  }

  /** Enough pages cover the whole list. */
  lemma PagesCover<T>(s: seq<T>)
    ensures Pages(s, (|s| + 9) / 10) == s
  {
    PagesPrefix(s, (|s| + 9) / 10);
  }

  /** The item at index i is item i % 10 of page i / 10 + 1. */
  lemma PageOfIndex<T>(s: seq<T>, i: nat)
    requires i < |s|
    ensures i % 10 < |PageSlice(s, i / 10 + 1)|
    ensures PageSlice(s, i / 10 + 1)[i % 10] == s[i]
  {
  }
}
