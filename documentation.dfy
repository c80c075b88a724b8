/**
 * The documentation page (app/documentation/page.tsx): four sections, each
 * reachable from a card whose link targets the section's anchor. Both the
 * link and the anchor come from the same slug of the section title.
 */
module Documentation {
  import opened Text

  /** The section titles, in page order. */
  const SectionTitles: seq<string> := ["Getting Started", "API Reference", "Algorithm Details", "Examples"]

  /** Lower-casing keeps spaces where they are and makes none. */
  lemma {:induction false} LowerKeepsSpaces(title: string)
    ensures IndexOf(ToLower(title), ' ') == IndexOf(title, ' ')
  {
    var lower := ToLower(title);
    var i := IndexOf(title, ' ');
    forall k | 0 <= k < i
      ensures lower[k] != ' '
    {
      assert title[k] != ' ';
    }
    assert i < |title| ==> lower[i] == ' ';
  }

  /**
   * `title.toLowerCase().replace(' ', '-')`: the title lower-cased, with
   * its first space, and only that one, turned into a dash.
   */
  function Slug(title: string): (slug: string)
    ensures |slug| == |title|
    ensures forall k :: 0 <= k < |title| && k != IndexOf(title, ' ') ==> slug[k] == LowerChar(title[k])
    ensures IndexOf(title, ' ') < |title| ==> slug[IndexOf(title, ' ')] == '-'
  {
    LowerKeepsSpaces(title);
    ReplaceFirst(ToLower(title), ' ', '-')
  }

  /** The card's link (line 47): a fragment naming the anchor of the same section (line 78). */
  function Href(title: string): (href: string)
    ensures |href| == |title| + 1 && href[0] == '#'
    ensures href[1..] == SectionId(title)
  {
    "#" + Slug(title)
  }

  /** The section's anchor: as long as the title, with no upper-case letter. */
  function SectionId(title: string): (id: string)
    ensures |id| == |title|
    ensures forall k :: 0 <= k < |id| ==> !IsUpper(id[k])
  {
    Slug(title)
  }

  /** Every card's link points at the anchor of its own section, and at no other. */
  lemma LinkTargetsOwnSection(i: nat, j: nat)
    requires i < |SectionTitles| && j < |SectionTitles|
    ensures Href(SectionTitles[i]) == "#" + SectionId(SectionTitles[i])
    ensures Href(SectionTitles[i]) == "#" + SectionId(SectionTitles[j]) <==> i == j
  {
    if i != j {
      SlugsDistinct(i, j);
      var a, b := Href(SectionTitles[i]), "#" + SectionId(SectionTitles[j]);
      assert a[1..] != b[1..];
    }
  }

  /** A title with one space at most gives a slug with no space. */
  lemma NoSpaceLeft(title: string)
    requires forall i, j :: 0 <= i < j < |title| ==> !(title[i] == ' ' && title[j] == ' ')
    ensures ' ' !in Slug(title)
  {
    var slug := Slug(title);
    var first := IndexOf(title, ' ');
    forall k | 0 <= k < |slug|
      ensures slug[k] != ' '
    {
      if k != first {
        assert title[k] != ' ' by {
          if k < first {
          } else {
            assert first < |title| ==> title[first] == ' ';
          }
        }
      }
    }
  }

  /** Only the first space is replaced: a later one stays in the slug. */
  lemma SecondSpaceKept(title: string, j: nat)
    requires j < |title| && title[j] == ' ' && IndexOf(title, ' ') < j
    ensures Slug(title)[j] == ' '
    ensures ' ' in Slug(title)
  {
  }

  /** The slug of a title whose first space is at `first`, lower-cased to `lowered`. */
  lemma SlugAt(title: string, first: nat, lowered: string)
    requires first < |title| && title[first] == ' '
    requires forall k :: 0 <= k < first ==> title[k] != ' '
    requires ToLower(title) == lowered
    ensures Slug(title) == lowered[first := '-']
  {
    assert IndexOf(title, ' ') == first;
  }

  /** The slug of a title whose first space is at `first`, compared with an expected text. */
  lemma SlugIs(title: string, first: nat, lowered: string, expected: string)
    requires first < |title| && title[first] == ' '
    requires forall k :: 0 <= k < first ==> title[k] != ' '
    requires ToLower(title) == lowered && lowered[first := '-'] == expected
    ensures Slug(title) == expected
  {
    SlugAt(title, first, lowered);
  }

  /** The slug of a title without spaces, lower-cased to `lowered`. */
  lemma SlugWithoutSpace(title: string, lowered: string)
    requires forall k :: 0 <= k < |title| ==> title[k] != ' '
    requires ToLower(title) == lowered
    ensures Slug(title) == lowered
  {
    assert IndexOf(title, ' ') == |title|;
  }

  /** The titles lower-cased. */
  const LoweredTitles: seq<string> := ["getting started", "api reference", "algorithm details", "examples"]

  lemma {:induction false} LoweredTitle(k: nat, title: string)
    requires k < |SectionTitles| && title == SectionTitles[k]
    ensures ToLower(title) == LoweredTitles[k]
  {
    if k == 0 {
      assert ToLower(title) == "getting started";
    } else if k == 1 {
      assert ToLower(title) == "api reference";
    } else if k == 2 {
      assert ToLower(title) == "algorithm details";
    } else {
      assert ToLower(title) == "examples";
    }
  }

  lemma GettingStartedSlug(title: string)
    requires title == SectionTitles[0]
    ensures Slug(title) == "getting-started"
  {
    assert forall k :: 0 <= k < 7 ==> title[k] != ' ';
    LoweredTitle(0, title);
    assert LoweredTitles[0][7 := '-'] == "getting-started";
    SlugIs(title, 7, LoweredTitles[0], "getting-started");
  }

  lemma ApiReferenceSlug(title: string)
    requires title == SectionTitles[1]
    ensures Slug(title) == "api-reference"
  {
    assert forall k :: 0 <= k < 3 ==> title[k] != ' ';
    LoweredTitle(1, title);
    assert LoweredTitles[1][3 := '-'] == "api-reference";
    SlugIs(title, 3, LoweredTitles[1], "api-reference");
  }

  lemma AlgorithmDetailsSlug(title: string)
    requires title == SectionTitles[2]
    ensures Slug(title) == "algorithm-details"
  {
    assert forall k :: 0 <= k < 9 ==> title[k] != ' ';
    LoweredTitle(2, title);
    assert LoweredTitles[2][9 := '-'] == "algorithm-details";
    SlugIs(title, 9, LoweredTitles[2], "algorithm-details");
  }

  lemma ExamplesSlug(title: string)
    requires title == SectionTitles[3]
    ensures Slug(title) == "examples"
  {
    LoweredTitle(3, title);
    SlugWithoutSpace(title, LoweredTitles[3]);
  }

  /** The four slugs: `getting-started`, `api-reference`, `algorithm-details`, `examples`; none holds a space. */
  lemma SectionSlugs(a: string, b: string, c: string, d: string)
    requires [a, b, c, d] == SectionTitles
    ensures Slug(a) == "getting-started"
    ensures Slug(b) == "api-reference"
    ensures Slug(c) == "algorithm-details"
    ensures Slug(d) == "examples"
  {
    GettingStartedSlug(a);
    ApiReferenceSlug(b);
    AlgorithmDetailsSlug(c);
    ExamplesSlug(d);
  }

  /** Different sections get different slugs, so no two cards share a target. */
  lemma SlugsDistinct(i: nat, j: nat)
    requires i < |SectionTitles| && j < |SectionTitles| && i != j
    ensures Slug(SectionTitles[i]) != Slug(SectionTitles[j])
  {
    assert |SectionTitles[i]| != |SectionTitles[j]|;
  }
}
