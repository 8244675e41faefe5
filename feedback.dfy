/**
 * The client feedback section: four feedbacks per page, the page controls,
 * the rating picker and the submission that puts a new feedback in front.
 */
module Feedback {

  datatype Feedback = Feedback(id: string, name: string, comment: string, rating: int, date: string)

  /** The form for a new feedback. */
  datatype Draft = Draft(name: string, comment: string, rating: int)

  const PerPage: nat := 4

  const EmptyDraft: Draft := Draft("", "", 5)

  /** `Math.ceil(length / 4)`. */
  function TotalPages(length: nat): (pages: nat)
    ensures pages * PerPage >= length
    ensures pages > 0 ==> (pages - 1) * PerPage < length
    ensures pages == 0 <==> length == 0
  {
    (length + PerPage - 1) / PerPage
  }

  /** Where a `slice` bound lands: negative bounds count from the end, and bounds are clipped to the list. */
  function SliceBound(b: int, length: nat): (r: nat)
    ensures r <= length
    ensures 0 <= b <= length ==> r == b
  {
    if b < 0 then (if length + b < 0 then 0 else length + b) else if b > length then length else b
  }

  /** JavaScript's `xs.slice(start, end)`. */
  function JsSlice<T>(xs: seq<T>, start: int, end: int): (r: seq<T>)
    ensures 0 <= start <= end ==> |r| <= end - start
    ensures 0 <= start <= |xs| && start <= end ==>
      r == xs[start..if end <= |xs| then end else |xs|]
  {
    var s := SliceBound(start, |xs|);
    var e := SliceBound(end, |xs|);
    if e <= s then [] else xs[s..e]
  }

  /** `currentFeedbacks` on page `page`: the slice from `(page - 1) * 4` to `page * 4`. */
  function PageItems<T>(xs: seq<T>, page: int): (r: seq<T>)
    ensures page >= 1 ==> |r| <= PerPage
    ensures 1 <= page <= TotalPages(|xs|) ==> r != []
  {
    JsSlice(xs, (page - 1) * PerPage, page * PerPage)
  }

  /** Pages 1 to `k`, one after the other. */
  function PagesUpTo<T>(xs: seq<T>, k: nat): seq<T>
  {
    if k == 0 then [] else PagesUpTo(xs, k - 1) + PageItems(xs, k)
  }

  /** The first `k` pages hold the first `4 * k` feedbacks (or all of them). */
  lemma {:induction false} PagesPrefix<T>(xs: seq<T>, k: nat)
    ensures PagesUpTo(xs, k) == xs[..if k * PerPage <= |xs| then k * PerPage else |xs|]
  {
    if k > 0 {
      PagesPrefix(xs, k - 1);
      var a := if (k - 1) * PerPage <= |xs| then (k - 1) * PerPage else |xs|;
      var b := if k * PerPage <= |xs| then k * PerPage else |xs|;
      if (k - 1) * PerPage <= |xs| {
        assert PageItems(xs, k) == xs[a..b];
      } else {
        assert PageItems(xs, k) == [];
      }
      assert xs[..a] + xs[a..b] == xs[..b];
    }
  }

  /** Reading every page in turn shows each feedback once, in list order. */
  lemma AllPages<T>(xs: seq<T>)
    ensures PagesUpTo(xs, TotalPages(|xs|)) == xs
  {
    PagesPrefix(xs, TotalPages(|xs|));
  }

  /** The "Previous" control is shown only past the first page. */
  predicate ShowPrevious(page: int)
  {
    page > 1
  }

  /** The "Next" control is shown only before the last page. */
  predicate ShowNext(page: int, totalPages: nat)
  {
    page < totalPages
  }

  /** The number a string of decimal digits denotes, read left to right. */
  function DigitsValue(s: string): int
  {
    if s == [] then 0 else 10 * DigitsValue(s[..|s| - 1]) + (s[|s| - 1] as int - '0' as int)
  }

  /**
   * `(n).toString()` for a natural number: the decimal digits of `n`, with
   * no leading zero, so different counts give different ids.
   */
  function Decimal(n: nat): (s: string)
    ensures |s| >= 1
    ensures forall i :: 0 <= i < |s| ==> '0' <= s[i] <= '9'
    ensures DigitsValue(s) == n
    ensures s[0] == '0' ==> s == "0"
  {
    var digit := ['0' + (n % 10) as char];
    if n < 10 then
      digit
    else
      var r := Decimal(n / 10) + digit;
      assert r[..|r| - 1] == Decimal(n / 10);
      r
  }

  /** The section's state. */
  class Section {
    var feedbacks: seq<Feedback>
    var newFeedback: Draft
    var currentPage: int

    /** The page is a real page of the list (page 1 stands for an empty list). */
    predicate Valid()
      reads this
    {
      1 <= currentPage && (currentPage <= TotalPages(|feedbacks|) || currentPage == 1)
    }

    /** The sample feedbacks, an empty form and page 1. */
    constructor(sample: seq<Feedback>)
      ensures Valid()
      ensures feedbacks == sample && newFeedback == EmptyDraft && currentPage == 1
    {
      feedbacks := sample;
      newFeedback := EmptyDraft;
      currentPage := 1;
    }

    /** `handleRatingChange`: only the draft's rating changes. */
    method HandleRatingChange(rating: int)
      modifies this
      ensures newFeedback == old(newFeedback).(rating := rating)
      ensures feedbacks == old(feedbacks) && currentPage == old(currentPage)
    {
      newFeedback := newFeedback.(rating := rating);
    }

    /**
     * `handleSubmit`: the draft becomes a feedback with id `length + 1` and
     * today's date, put in front of the list; the form is cleared and the
     * first page shown.
     */
    method HandleSubmit(today: string)
      requires Valid()
      modifies this
      ensures Valid()
      ensures feedbacks == [Feedback(Decimal(|old(feedbacks)| + 1), old(newFeedback).name,
                                     old(newFeedback).comment, old(newFeedback).rating, today)]
                           + old(feedbacks)
      ensures feedbacks[1..] == old(feedbacks)
      ensures newFeedback == EmptyDraft && currentPage == 1
    {
      var feedback := Feedback(Decimal(|feedbacks| + 1), newFeedback.name, newFeedback.comment, newFeedback.rating, today);
      feedbacks := [feedback] + feedbacks;
      newFeedback := EmptyDraft;
      currentPage := 1;
    }

    /** The "Previous" control, which exists only while it is shown. */
    method ClickPrevious()
      requires Valid() && ShowPrevious(currentPage)
      modifies this
      ensures Valid() && currentPage == old(currentPage) - 1
      ensures feedbacks == old(feedbacks) && newFeedback == old(newFeedback)
    {
      currentPage := currentPage - 1;
    }

    /** The "Next" control, which exists only while it is shown. */
    method ClickNext()
      requires Valid() && ShowNext(currentPage, TotalPages(|feedbacks|))
      modifies this
      ensures Valid() && currentPage == old(currentPage) + 1
      ensures feedbacks == old(feedbacks) && newFeedback == old(newFeedback)
    {
      currentPage := currentPage + 1;
    }

    /** A numbered page link, one for each page from 1 to the last. */
    method ClickPage(page: int)
      requires 1 <= page <= TotalPages(|feedbacks|)
      modifies this
      ensures Valid() && currentPage == page
      ensures feedbacks == old(feedbacks) && newFeedback == old(newFeedback)
    {
      currentPage := page;
    }
  }
}
