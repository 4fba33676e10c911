/**
 * The search branch's filter, question ILIKE '%term%', as ASCII
 * case-insensitive substring matching.
 */
module QuestionSearch {
  import opened Models

  /** ASCII lower case. */
  function Lower(c: char): char {
    if 'A' <= c <= 'Z' then (c as int - 'A' as int + 'a' as int) as char else c
  }

  function LowerString(s: string): (r: string)
    ensures |r| == |s| && forall i :: 0 <= i < |s| ==> r[i] == Lower(s[i])
  {
    seq(|s|, i requires 0 <= i < |s| => Lower(s[i]))
  }

  /** term occurs in text starting at position i. */
  predicate OccursAt(text: string, term: string, i: int) {
    0 <= i && i + |term| <= |text| && text[i..i + |term|] == term
  }

  /** Scans text left to right for term. */
  function Contains(text: string, term: string): bool
  {
    if |term| > |text| then false
    else if text[..|term|] == term then true
    else |text| > 0 && Contains(text[1..], term)
  }

  /** The scan finds term exactly when it occurs somewhere in text. */
  lemma {:induction false} ContainsIff(text: string, term: string)
    ensures Contains(text, term) <==> exists i :: OccursAt(text, term, i)
  {
    if |term| > |text| {
    } else if text[..|term|] == term {
      assert OccursAt(text, term, 0);
    } else if |text| > 0 {
      var tail := text[1..];
      ContainsIff(tail, term);
      if i :| OccursAt(tail, term, i) {
        assert text[i + 1..i + 1 + |term|] == tail[i..i + |term|];
        assert OccursAt(text, term, i + 1);
      }
      if i :| OccursAt(text, term, i) {
        assert i != 0;
        assert tail[i - 1..i - 1 + |term|] == text[i..i + |term|];
        assert OccursAt(tail, term, i - 1);
      }
    }
  }

  predicate ContainsIgnoreCase(text: string, term: string) {
    Contains(LowerString(text), LowerString(term))
  }

  /** The filter a question passes: a NULL text never matches. */
  predicate Matches(q: Question, term: string) {
    q.question.Some? && ContainsIgnoreCase(q.question.value, term)
  }

  /** The questions whose text contains term, ignoring case, in store order. */
  function Search(qs: seq<Question>, term: string): (r: seq<Question>)
    ensures |r| <= |qs|
    ensures forall q :: q in r <==> q in qs && Matches(q, term)
  {
    if qs == [] then []
    else (if Matches(qs[0], term) then [qs[0]] else []) + Search(qs[1..], term)
  }

  /** Searching splits over a split of the store: results keep store order. */
  lemma {:induction false} SearchAppend(a: seq<Question>, b: seq<Question>, term: string)
    ensures Search(a + b, term) == Search(a, term) + Search(b, term)
  {
    if a != [] {
      assert (a + b)[1..] == a[1..] + b;
      SearchAppend(a[1..], b, term);
    } else {
      assert a + b == b;
    }
  }

  /** A single question is found exactly when it matches. */
  lemma SearchOne(q: Question, term: string)
    ensures Search([q], term) == if Matches(q, term) then [q] else []
  {
  }

  /** The empty term matches a question exactly when its text is not NULL. */
  lemma EmptyTermMatches(q: Question)
    ensures Matches(q, "") <==> q.question.Some?
  {
    if q.question.Some? {
      assert Contains(LowerString(q.question.value), LowerString(""));
    }
  }

  /** The empty term finds exactly the questions whose text is not NULL. */
  lemma SearchEmptyTerm(qs: seq<Question>)
    ensures forall q :: q in Search(qs, "") <==> q in qs && q.question.Some?
  {
    forall q ensures Matches(q, "") <==> q.question.Some? {
      EmptyTermMatches(q);
    }
  }

  /** On a store without NULL texts, the empty term finds every question, in store order. */
  lemma {:induction false} SearchEmptyTermNoNulls(qs: seq<Question>)
    requires forall i :: 0 <= i < |qs| ==> qs[i].question.Some?
    ensures Search(qs, "") == qs
  {
    if qs != [] {
      EmptyTermMatches(qs[0]);
      SearchEmptyTermNoNulls(qs[1..]);
    }
  }

  /** Terms that agree up to ASCII case find the same questions ("EVER" and "ever"). */
  lemma {:induction false} SearchCaseInsensitive(qs: seq<Question>, a: string, b: string)
    requires LowerString(a) == LowerString(b)
    ensures Search(qs, a) == Search(qs, b)
  {
    if qs != [] {
      SearchCaseInsensitive(qs[1..], a, b);
    }
  }

  /** The spelled-out case of the above: searching "EVER" finds what searching "ever" finds. */
  lemma SearchEverIgnoresCase(qs: seq<Question>)
    ensures Search(qs, "EVER") == Search(qs, "ever")
  {
    assert LowerString("EVER") == "ever" == LowerString("ever");
    SearchCaseInsensitive(qs, "EVER", "ever");
  }
}
