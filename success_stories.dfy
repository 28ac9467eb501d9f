/** src/app/success-stories/page.tsx: the category filter over the stories, the carousel index that
    the previous and next buttons move round, the grid of the other stories and the "Read Full Story"
    jump. The stories themselves are static content and are a parameter here. */
module SuccessStories {
  import opened Common
  import opened Listing

  /** The fields of a story the page's logic looks at. */
  datatype Story = Story(id: int, category: string, name: string)

  /** The category value that selects every story. */
  const AllCategories := "all"

  /** filteredStories: every story for "all", otherwise the stories of that category in order. */
  function FilteredStories(stories: seq<Story>, category: string): (kept: seq<Story>)
    ensures category == AllCategories ==> kept == stories
    ensures IsSubsequence(kept, stories)
    ensures category != AllCategories ==>
      (forall s | s in kept :: s in stories && s.category == category) &&
      (forall s | s in stories && s.category == category :: s in kept)
  {
    SubsequenceOfItself(stories);
    if category == AllCategories then stories else Filter(stories, (s: Story) => s.category == category)
  }

  /** nextStory: one on, wrapping from the last story to the first. With no stories the index
      becomes NaN, which is None here. */
  function NextStory(index: nat, n: nat): (next: Option<nat>)
    ensures next.None? <==> n == 0
    ensures next.Some? ==> next.value < n
    ensures n > 0 && index + 1 < n ==> next == Some(index + 1)
    ensures n > 0 && index + 1 == n ==> next == Some(0)
  {
    if n == 0 then None else Some((index + 1) % n)
  }

  /** prevStory: one back, wrapping from the first story to the last. */
  function PrevStory(index: nat, n: nat): (prev: Option<nat>)
    ensures prev.None? <==> n == 0
    ensures prev.Some? ==> prev.value < n
    ensures n > 0 && 0 < index <= n ==> prev == Some(index - 1)
    ensures n > 0 && index == 0 ==> prev == Some(n - 1)
  {
    if n == 0 then None else Some((index - 1 + n) % n)
  }

  /** Within the carousel, previous undoes next and next undoes previous. */
  lemma PrevUndoesNext(index: nat, n: nat)
    requires index < n
    ensures PrevStory(NextStory(index, n).value, n) == Some(index)
    ensures NextStory(PrevStory(index, n).value, n) == Some(index)
  {
  }

  /** The story reached by pressing next `steps` times. */
  function Forward(index: nat, n: nat, steps: nat): (i: nat)
    requires index < n
    ensures i < n
    decreases steps
  {
    if steps == 0 then index else Forward(NextStory(index, n).value, n, steps - 1)
  }

  /** Going forward `steps` times is adding `steps` modulo n, so n steps go all the way round. */
  lemma {:induction false} ForwardIsModular(index: nat, n: nat, steps: nat)
    requires index < n
    ensures Forward(index, n, steps) == (index + steps) % n
    decreases steps
  {
    if steps > 0 {
      var next := NextStory(index, n).value;
      ForwardIsModular(next, n, steps - 1);
      if index + 1 == n {
        WrapAround(steps - 1, n);
      }
    }
  }

  /** Adding a whole turn does not change a position modulo n. */
  lemma WrapAround(x: nat, n: nat)
    requires n > 0
    ensures (x + n) % n == x % n
  {
    var q, r := x / n, x % n;
    var q2, r2 := (x + n) / n, (x + n) % n;
    assert x == q * n + r;
    assert x + n == q2 * n + r2;
    var d := q2 - q - 1;
    assert d * n == r - r2 by {
      assert q2 * n == (q + 1) * n + r - r2;
      assert (q2 - q - 1) * n == q2 * n - (q + 1) * n;
    }
    assert d == 0;
  }

  /** n steps forward from any story come back to it. */
  lemma FullTurnReturns(index: nat, n: nat)
    requires index < n
    ensures Forward(index, n, n) == index
  {
    ForwardIsModular(index, n, n);
    WrapAround(index, n);
  }

  /** Choosing a category (by button or by the select) shows that category from its first story. */
  function ChooseCategory(category: string): (state: (string, nat))
    ensures state.0 == category && state.1 == 0
  {
    (category, 0)
  }

  /** The featured story at an index, where there is one. */
  function Featured(filtered: seq<Story>, index: nat): (story: Option<Story>)
    ensures story.Some? <==> index < |filtered|
    ensures story.Some? ==> story.value == filtered[index]
  {
    if index < |filtered| then Some(filtered[index]) else None
  }

  /** The "More Success Stories" grid: the filtered stories except the one at the current index. */
  function Grid(filtered: seq<Story>, index: nat): (others: seq<Story>)
    ensures index < |filtered| ==> others == filtered[..index] + filtered[index + 1..]
    ensures index >= |filtered| ==> others == filtered
    ensures |others| == if index < |filtered| then |filtered| - 1 else |filtered|
  {
    if |filtered| == 0 then []
    else if index == 0 then filtered[1..]
    else [filtered[0]] + Grid(filtered[1..], index - 1)
  }

  /** The stories of a list have different ids. */
  predicate UniqueIds(stories: seq<Story>) {
    forall i, j | 0 <= i < j < |stories| :: stories[i].id != stories[j].id
  }

  /** "Read Full Story": the index becomes the position of the story with that id in the filtered
      list, -1 when there is none. */
  function ReadFullStory(filtered: seq<Story>, id: int): (index: int)
    ensures -1 <= index < |filtered|
    ensures index >= 0 ==> filtered[index].id == id
    ensures index == -1 <==> forall s | s in filtered :: s.id != id
  {
    FindIndex(filtered, (s: Story) => s.id == id)
  }

  /** When ids are unique, reading a story from the grid makes exactly that story the featured one. */
  lemma ReadFromGridFeaturesIt(filtered: seq<Story>, index: nat, k: nat)
    requires UniqueIds(filtered)
    requires k < |Grid(filtered, index)|
    ensures var i := ReadFullStory(filtered, Grid(filtered, index)[k].id);
      i >= 0 && Featured(filtered, i) == Some(Grid(filtered, index)[k])
  {
    var pos := GridSource(filtered, index, k);
    var story := filtered[pos];
    var i := ReadFullStory(filtered, story.id);
    assert i >= 0 by { assert story in filtered; }
    assert i == pos;
  }

  /** The k-th story of the grid is the story at the position the grid skips the featured one over. */
  lemma GridSource(filtered: seq<Story>, index: nat, k: nat) returns (pos: nat)
    requires k < |Grid(filtered, index)|
    ensures pos == if index < |filtered| && k >= index then k + 1 else k
    ensures pos < |filtered| && Grid(filtered, index)[k] == filtered[pos]
  {
    pos := if index < |filtered| && k >= index then k + 1 else k;
  }
}
