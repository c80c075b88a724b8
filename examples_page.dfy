/**
 * The examples page (app/examples/page.tsx): a fixed list of example
 * formulas, a category filter over it, and the card marked as just copied.
 */
module ExamplesPage {
  import opened Js

  /** An example card (its description and icon are presentation only). */
  datatype Example = Example(name: string, formula: string, category: string)

  /** The eight examples, in page order. */
  const Examples: seq<Example> := [
    Example("Simple AND", "a & b", "Basic"),
    Example("Simple OR", "a | b", "Basic"),
    Example("Implication", "(a & b | ~c) -> d <-> e", "Intermediate"),
    Example("Contradiction", "a & ~a", "Basic"),
    Example("De Morgan", "~(a & b) <-> (~a | ~b)", "Advanced"),
    Example("Zazavavindrano", "zazavavindrano & zazavavindrano -> ((~ swim_warm -> red) & (blue | ~ red))", "Advanced"),
    Example("Complex Logic", "~(a -> b|c) <-> ~c&d", "Intermediate"),
    Example("Distributive Law", "a & (b | c) <-> (a & b) | (a & c)", "Advanced")
  ]

  /** The category buttons, in order. */
  const Categories: seq<string> := ["All", "Basic", "Intermediate", "Advanced"]

  /** `xs.filter(ex => ex.category === category)` */
  function FilterCategory(xs: seq<Example>, category: string): (r: seq<Example>)
    ensures |r| <= |xs|
    ensures forall e :: e in r <==> e in xs && e.category == category
  {
    if xs == [] then []
    else if xs[0].category == category then [xs[0]] + FilterCategory(xs[1..], category)
    else FilterCategory(xs[1..], category)
  }

  /** The filter keeps every copy of a matching example and no copy of any other. */
  lemma {:induction false} FilterCounts(xs: seq<Example>, category: string)
    ensures forall e :: multiset(FilterCategory(xs, category))[e] == if e.category == category then multiset(xs)[e] else 0
  {
    if xs != [] {
      FilterCounts(xs[1..], category);
      assert xs == [xs[0]] + xs[1..];
    }
  }

  /** `a` is `b` with some elements left out, the rest in their original order. */
  predicate IsSubsequence(a: seq<Example>, b: seq<Example>)
  {
    if a == [] then true
    else if b == [] then false
    else (a[0] == b[0] && IsSubsequence(a[1..], b[1..])) || IsSubsequence(a, b[1..])
  }

  /** Filtering keeps the order of the examples it keeps. */
  lemma {:induction false} FilterIsSubsequence(xs: seq<Example>, category: string)
    ensures IsSubsequence(FilterCategory(xs, category), xs)
  {
    if xs != [] {
      FilterIsSubsequence(xs[1..], category);
    }
  }

  /** `filteredExamples`: every example for "All", else those of the selected category. */
  function Filtered(selected: string): (r: seq<Example>)
    ensures selected == "All" ==> r == Examples
    ensures selected != "All" ==> forall e :: e in r <==> e in Examples && e.category == selected
  {
    if selected == "All" then Examples else FilterCategory(Examples, selected)
  }

  /** Whatever is selected, the cards shown are examples from the list in list order. */
  lemma FilteredIsSubsequence(selected: string)
    ensures IsSubsequence(Filtered(selected), Examples)
  {
    if selected == "All" {
      SubsequenceOfSelf(Examples);
    } else {
      FilterIsSubsequence(Examples, selected);
    }
  }

  lemma {:induction false} SubsequenceOfSelf(xs: seq<Example>)
    ensures IsSubsequence(xs, xs)
  {
    if xs != [] {
      SubsequenceOfSelf(xs[1..]);
    }
  }

  /** Every category button selects at least one card, so "No examples found" never shows for them. */
  lemma EveryCategoryNonEmpty(k: nat)
    requires k < |Categories|
    ensures |Filtered(Categories[k])| > 0
  {
    var c := Categories[k];
    if c != "All" {
      var sample := if c == "Basic" then Examples[0] else if c == "Intermediate" then Examples[2] else Examples[4];
      assert sample in Examples && sample.category == c;
      assert sample in Filtered(c);
    }
  }

  const CopiedLabel: string := "\U{2713} Copied!"
  const CopyHint: string := "Click copy to use"

  /** The label under card `index`: the copied mark exactly on the card whose index was recorded. */
  function CopyLabel(copiedIndex: Option<nat>, index: nat): (shown: string)
    ensures shown == CopiedLabel <==> copiedIndex == Some(index)
    ensures shown != CopiedLabel ==> shown == CopyHint
  {
    if copiedIndex == Some(index) then CopiedLabel else CopyHint
  }

  /** The page's two state slots. */
  class ExamplesView {
    var selectedCategory: string
    var copiedIndex: Option<nat>

    /** `useState('All')`, `useState(null)` */
    constructor ()
      ensures selectedCategory == "All" && copiedIndex == None
    {
      selectedCategory := "All";
      copiedIndex := None;
    }

    /** A category button: `setSelectedCategory(category)`; the copied index is kept. */
    method SelectCategory(category: string)
      modifies this
      ensures selectedCategory == category && copiedIndex == old(copiedIndex)
    {
      selectedCategory := category;
    }

    /**
     * The copy button of card `index`: the card's formula goes to the
     * clipboard (returned) and its position in the shown list is recorded.
     */
    method CopyExample(index: nat) returns (clipboard: string)
      requires index < |Filtered(selectedCategory)|
      modifies this
      ensures copiedIndex == Some(index) && selectedCategory == old(selectedCategory)
      ensures clipboard == Filtered(selectedCategory)[index].formula
      ensures forall j :: CopyLabel(copiedIndex, j) == CopiedLabel <==> j == index
    {
      clipboard := Filtered(selectedCategory)[index].formula;
      copiedIndex := Some(index);
    }
  }

  /** Examples before the first one of the category are skipped. */
  lemma {:induction false} FilterSkips(xs: seq<Example>, category: string, n: nat)
    requires n < |xs| && xs[n].category == category
    requires forall k :: 0 <= k < n ==> xs[k].category != category
    ensures FilterCategory(xs, category)[0] == xs[n]
  {
    if n > 0 {
      FilterSkips(xs[1..], category, n - 1);
    }
  }

  /** The first card of a category, found by skipping the examples before it. */
  lemma FirstOfCategory(category: string, n: nat)
    requires category != "All" && n < |Examples| && Examples[n].category == category
    requires forall k :: 0 <= k < n ==> Examples[k].category != category
    ensures |Filtered(category)| > 0 && Filtered(category)[0] == Examples[n]
  {
    FilterSkips(Examples, category, n);
  }

  lemma FirstBasicCard(basic: string)
    requires basic == "Basic"
    ensures |Filtered(basic)| > 0 && Filtered(basic)[0] == Examples[0]
    ensures Filtered(basic)[0].name == "Simple AND" && Filtered(basic)[0].formula == "a & b"
  {
    FirstOfCategory(basic, 0);
  }

  lemma FirstAdvancedCard(advanced: string)
    requires advanced == "Advanced"
    ensures |Filtered(advanced)| > 0 && Filtered(advanced)[0] == Examples[4]
    ensures Filtered(advanced)[0].name == "De Morgan"
  {
    assert forall k :: 0 <= k < 4 ==> Examples[k].category != advanced;
    FirstOfCategory(advanced, 4);
  }

  /**
   * The mark records a position, not an example: copy the first Basic card
   * ("Simple AND"), then switch to Advanced before the mark is cleared,
   * and the mark sits on the first Advanced card ("De Morgan").
   */
  method CopiedMarkFollowsPosition(basic: string, advanced: string) returns (v: ExamplesView, clipboard: string)
    requires basic == "Basic" && advanced == "Advanced"
    ensures v.selectedCategory == advanced
    ensures clipboard == "a & b"
    ensures CopyLabel(v.copiedIndex, 0) == CopiedLabel
    ensures |Filtered(v.selectedCategory)| > 0 && Filtered(v.selectedCategory)[0] == Examples[4]
    ensures Filtered(v.selectedCategory)[0].name == "De Morgan"
  {
    v := new ExamplesView();
    v.SelectCategory(basic);
    FirstBasicCard(basic);
    clipboard := v.CopyExample(0);
    assert clipboard == Examples[0].formula;
    v.SelectCategory(advanced);
    FirstAdvancedCard(advanced);
    assert v.copiedIndex == Some(0);
  }
}
