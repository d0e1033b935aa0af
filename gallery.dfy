/** The gallery page (main.js): the search and tag filter over the example
    table, the cards it renders and the tag buttons that choose the filter. */
module Gallery {
  import opened Text
  import opened Catalog
  import DemoLoader

  /** The tag `"all"` switches tag filtering off; any other tag must be one of the example's tags. */
  predicate TagMatch(activeTag: string, e: Example)
  {
    activeTag == "all" || activeTag in e.tags
  }

  /** Case-insensitive substring search over the title or the description. */
  predicate SearchMatch(searchInput: string, e: Example)
  {
    var term := ToLower(searchInput);
    Contains(ToLower(e.title), term) || Contains(ToLower(e.description), term)
  }

  predicate Shown(activeTag: string, searchInput: string, e: Example)
  {
    TagMatch(activeTag, e) && SearchMatch(searchInput, e)
  }

  /** `examples.filter(...)` with the predicate of `renderExamples`. */
  function FilterExamples(examples: seq<Example>, activeTag: string, searchInput: string): (r: seq<Example>)
    ensures |r| <= |examples|
    ensures forall e :: e in r ==> e in examples && Shown(activeTag, searchInput, e)
  {
    if |examples| == 0 then []
    else
      var rest := FilterExamples(examples[1..], activeTag, searchInput);
      if Shown(activeTag, searchInput, examples[0]) then [examples[0]] + rest else rest
  }

  /** The rendered list keeps the examples' order, and holds each shown
      example exactly as often as the table does and nothing else. */
  lemma {:induction false} FilterIsOrderedSublist(examples: seq<Example>, activeTag: string, searchInput: string)
    ensures IsSublist(FilterExamples(examples, activeTag, searchInput), examples)
    ensures forall e :: multiset(FilterExamples(examples, activeTag, searchInput))[e] ==
                        if Shown(activeTag, searchInput, e) then multiset(examples)[e] else 0
  {
    if |examples| > 0 {
      var rest := FilterExamples(examples[1..], activeTag, searchInput);
      FilterIsOrderedSublist(examples[1..], activeTag, searchInput);
      assert examples == [examples[0]] + examples[1..];
      if !Shown(activeTag, searchInput, examples[0]) {
        SublistOfTail(rest, examples);
      }
    }
  }

  /** Every example that satisfies both filters is shown. */
  lemma KeepsEveryMatch(examples: seq<Example>, activeTag: string, searchInput: string, e: Example)
    requires e in examples && Shown(activeTag, searchInput, e)
    ensures e in FilterExamples(examples, activeTag, searchInput)
  {
    FilterIsOrderedSublist(examples, activeTag, searchInput);
    assert multiset(examples)[e] > 0;
  }

  /** An empty search matches every example; with "all" the whole table is shown. */
  lemma {:induction false} EmptySearchShowsAll(examples: seq<Example>)
    ensures FilterExamples(examples, "all", "") == examples
  {
    if |examples| > 0 {
      ContainsEmpty(ToLower(examples[0].title));
      EmptySearchShowsAll(examples[1..]);
    }
  }

  /** With an empty search and a tag other than "all", an example is shown
      iff that exact tag is one of its tags. */
  lemma TagFilterIsExactMembership(examples: seq<Example>, tag: string, e: Example)
    requires tag != "all"
    ensures e in FilterExamples(examples, tag, "") <==> e in examples && tag in e.tags
  {
    if e in examples && tag in e.tags {
      ContainsEmpty(ToLower(e.title));
      KeepsEveryMatch(examples, tag, "", e);
    }
  }

  /** Both the term and the text are lowered, so the search ignores the case of ASCII letters. */
  lemma SearchIgnoresCase(searchInput: string, e: Example)
    ensures SearchMatch(ToLower(searchInput), e) == SearchMatch(searchInput, e)
  {
    ToLowerIdempotent(searchInput);
  }

  /** One `<span class="card-tag">` per tag. */
  function TagSpan(tag: string): string
  {
    "<span class=\"card-tag\">" + tag + "</span>"
  }

  /** The content of one card built by `createExampleCard`. */
  datatype Card = Card(
    backgroundImage: string,
    tagSpans: seq<string>,
    title: string,
    description: string,
    href: string)

  function CardLink(id: string): string
  {
    "./src/demos/" + id + "/"
  }

  function CreateExampleCard(e: Example): (c: Card)
    ensures c.href == CardLink(e.id)
    ensures |c.tagSpans| == |e.tags|
    ensures forall i :: 0 <= i < |e.tags| ==> c.tagSpans[i] == TagSpan(e.tags[i])
    ensures c.title == e.title && c.description == e.description && c.backgroundImage == e.thumbnail
  {
    Card(e.thumbnail, seq(|e.tags|, i requires 0 <= i < |e.tags| => TagSpan(e.tags[i])),
         e.title, e.description, CardLink(e.id))
  }

  /** A card's link, opened, names its own demo: the demo loader reads the id back from it. */
  lemma CardLinkNamesDemo(e: Example)
    requires '/' !in e.id
    ensures DemoLoader.GetDemoPath(CreateExampleCard(e).href) == e.id
  {
    DemoLoader.DirectoryUrl("./src/demos", e.id);
    assert CardLink(e.id) == "./src/demos" + "/" + e.id + "/";
  }

  /** What the examples grid holds. */
  datatype Grid = NoResults | Cards(cards: seq<Card>)

  /** The grid `renderExamples` leaves: the no-results message when nothing
      matches, otherwise one card per shown example, in order. */
  function GridFor(shown: seq<Example>): (g: Grid)
    ensures g.NoResults? <==> |shown| == 0
    ensures g.Cards? ==> |g.cards| == |shown| &&
                         forall i :: 0 <= i < |shown| ==> g.cards[i] == CreateExampleCard(shown[i])
  {
    if |shown| == 0 then NoResults
    else Cards(seq(|shown|, i requires 0 <= i < |shown| => CreateExampleCard(shown[i])))
  }

  /** The page state of main.js: the module variable `activeTag`, the search
      box, the tag buttons (their `data-tag` and whether each is active) and the grid. */
  class GalleryPage {
    var activeTag: string
    var searchValue: string
    const buttonTags: seq<string>
    var buttonActive: seq<bool>
    var grid: Grid

    ghost predicate Valid()
      reads this
    {
      |buttonActive| == |buttonTags|
    }

    /** The page after `init`: tag "all" and the examples rendered once. */
    constructor (buttonTags: seq<string>, buttonActive: seq<bool>, searchValue: string)
      requires |buttonActive| == |buttonTags|
      ensures Valid()
      ensures this.buttonTags == buttonTags && this.buttonActive == buttonActive
      ensures activeTag == "all" && this.searchValue == searchValue
      ensures grid == GridFor(FilterExamples(Examples, "all", searchValue))
    {
      this.buttonTags := buttonTags;
      this.buttonActive := buttonActive;
      this.searchValue := searchValue;
      activeTag := "all";
      grid := Cards([]);
      new;
      RenderExamples();
    }

    /** `renderExamples`: clear the grid, filter, then show the no-results
        message or append one card per shown example. */
    method RenderExamples()
      modifies this`grid
      ensures grid == GridFor(FilterExamples(Examples, activeTag, searchValue))
    {
      grid := Cards([]);
      var filtered := FilterExamples(Examples, activeTag, searchValue);
      if |filtered| == 0 {
        grid := NoResults;
        return;
      }
      var i := 0;
      while i < |filtered|
        invariant 0 <= i <= |filtered|
        invariant grid == Cards(seq(i, k requires 0 <= k < i => CreateExampleCard(filtered[k])))
      {
        grid := Cards(grid.cards + [CreateExampleCard(filtered[i])]);
        i := i + 1;
      }
    }

    /** The `input` listener of the search box. */
    method OnSearchInput(value: string)
      modifies this`searchValue, this`grid
      ensures searchValue == value
      ensures grid == GridFor(FilterExamples(Examples, activeTag, value))
    {
      searchValue := value;
      RenderExamples();
    }

    /** The `click` listener of tag button `k`: only that button is active,
        `activeTag` becomes its `data-tag`, and the grid is rendered again. */
    method ClickTag(k: nat)
      requires Valid() && k < |buttonTags|
      modifies this`buttonActive, this`activeTag, this`grid
      ensures Valid()
      ensures forall j :: 0 <= j < |buttonTags| ==> buttonActive[j] == (j == k)
      ensures activeTag == buttonTags[k]
      ensures grid == GridFor(FilterExamples(Examples, buttonTags[k], searchValue))
    {
      var j := 0;
      while j < |buttonActive|
        invariant 0 <= j <= |buttonActive| == |buttonTags|
        invariant forall m :: 0 <= m < j ==> !buttonActive[m]
      {
        buttonActive := buttonActive[j := false];
        j := j + 1;
      }
      buttonActive := buttonActive[k := true];
      activeTag := buttonTags[k];
      RenderExamples();
    }
  }
}
