/** src/app/faqs/page.tsx: the search and category filter over the questions, the list of open
    questions that toggleFAQ updates, and the popular-questions strip. The questions themselves are
    static content and are a parameter here. */
module Faqs {
  import opened Listing

  /** The fields of a question the page's logic looks at. */
  datatype Faq = Faq(id: int, category: string, question: string, answer: string, tags: seq<string>)

  /** The category value that selects every question. */
  const AllCategories := "all"

  /** The ids of the questions shown as popular. */
  const PopularIds: seq<int> := [1, 3, 5, 7, 9, 13]

  /** The test the filter applies to one question: the search term occurs, ignoring case, in the
      question, the answer or one of the tags, and the category is "all" or the question's own. */
  predicate Shown(faq: Faq, term: string, category: string) {
    MatchesSearch([faq.question, faq.answer], faq.tags, term) &&
    (category == AllCategories || faq.category == category)
  }

  /** filteredFAQs: the questions that pass the search and category test, in their original order. */
  function FilteredFaqs(faqs: seq<Faq>, term: string, category: string): (kept: seq<Faq>)
    ensures IsSubsequence(kept, faqs)
    ensures forall f | f in kept :: f in faqs && Shown(f, term, category)
    ensures forall f | f in faqs && Shown(f, term, category) :: f in kept
  {
    Filter(faqs, (f: Faq) => Shown(f, term, category))
  }

  /** With the filters cleared (an empty search and "all"), every question is listed, in order. */
  lemma ClearedFiltersListEverything(faqs: seq<Faq>)
    ensures FilteredFaqs(faqs, "", AllCategories) == faqs
  {
    forall f | f in faqs
      ensures Shown(f, "", AllCategories)
    {
      EmptySearchMatches([f.question, f.answer], f.tags);
    }
    FilterKeepsAll(faqs, (f: Faq) => Shown(f, "", AllCategories));
  }

  /** The "N question(s) found" line: the plural ending is dropped for exactly one question. */
  function FoundSuffix(n: nat): (suffix: string)
    ensures suffix == "" <==> n == 1
  {
    if n != 1 then "s" else ""
  }

  /** toggleFAQ: an open question (present in the list) is closed by removing it; a closed one is
      opened by appending it. */
  function Toggle(open: seq<int>, id: int): (next: seq<int>)
    ensures id in open ==> id !in next && forall x | x in next :: x in open
    ensures id !in open ==> next == open + [id]
    ensures forall x | x != id :: x in next <==> x in open
  {
    if id in open then Filter(open, (x: int) => x != id) else open + [id]
  }

  /** The list of open questions has no id twice. */
  predicate NoDuplicates(open: seq<int>) {
    forall i, j | 0 <= i < j < |open| :: open[i] != open[j]
  }

  /** Toggling never puts an id in the list twice. */
  lemma ToggleKeepsNoDuplicates(open: seq<int>, id: int)
    requires NoDuplicates(open)
    ensures NoDuplicates(Toggle(open, id))
  {
    if id in open {
      FilterKeepsNoDuplicates(open, id);
    }
  }

  /** Removing every copy of one id from a list without duplicates leaves one without duplicates. */
  lemma {:induction false} FilterKeepsNoDuplicates(open: seq<int>, id: int)
    requires NoDuplicates(open)
    ensures NoDuplicates(Filter(open, (x: int) => x != id))
  {
    if |open| > 0 {
      var rest := Filter(open[1..], (x: int) => x != id);
      FilterKeepsNoDuplicates(open[1..], id);
      if open[0] != id {
        assert open[0] !in open[1..];
        assert Filter(open, (x: int) => x != id) == [open[0]] + rest;
      }
    }
  }

  /** Toggling the same question twice restores which questions are open. */
  lemma ToggleTwiceRestores(open: seq<int>, id: int)
    ensures forall x :: x in Toggle(Toggle(open, id), id) <==> x in open
  {
  }

  /** Opening a closed question and closing it again gives back the very same list. */
  lemma OpenThenCloseIsIdentity(open: seq<int>, id: int)
    requires id !in open
    ensures Toggle(Toggle(open, id), id) == open
  {
    FilterDropsOnlyLast(open, id);
  }

  /** Removing an id that was only appended at the end gives back the list before it. */
  lemma {:induction false} FilterDropsOnlyLast(open: seq<int>, id: int)
    requires id !in open
    ensures Filter(open + [id], (x: int) => x != id) == open
  {
    if |open| == 0 {
      assert Filter([id], (x: int) => x != id) == Filter([], (x: int) => x != id);
    } else {
      assert (open + [id])[1..] == open[1..] + [id];
      FilterDropsOnlyLast(open[1..], id);
    }
  }

  /** popularFAQs: the questions whose id is one of the popular ids, in their original order. */
  function PopularFaqs(faqs: seq<Faq>): (popular: seq<Faq>)
    ensures IsSubsequence(popular, faqs)
    ensures forall f | f in popular :: f in faqs && f.id in {1, 3, 5, 7, 9, 13}
    ensures forall f | f in faqs && f.id in {1, 3, 5, 7, 9, 13} :: f in popular
  {
    Filter(faqs, (f: Faq) => f.id in PopularIds)
  }
}
