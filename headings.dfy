/**
 * Heading collection: every element the `#content h1 … #content h6`
 * selector returns, in document order, becomes a heading with the level
 * named by its tag and its trimmed text; elements whose trimmed text is
 * empty are skipped.
 */
module Headings {
  import opened Text

  /** A tag name the selector can return: `h1` to `h6`. */
  predicate IsHeadingTag(name: string) {
    |name| == 2 && name[0] == 'h' && '1' <= name[1] <= '6'
  }

  type HeadingTag = name: string | IsHeadingTag(name) witness "h1"

  /** A heading nesting level, 1 for a top-level heading. */
  type Level = n: nat | 1 <= n <= 6 witness 1

  /** A selected element: its tag name and its text content before trimming. */
  datatype Element = Element(tag: HeadingTag, rawText: string)

  datatype Heading = Heading(level: Level, text: string)

  /** The tag name for a level. */
  function TagName(level: Level): HeadingTag {
    ['h', (('0' as int) + level) as char]
  }

  /**
   * The level the handler reads off a tag name: the decimal value of the
   * digit after the `h`. It is the inverse of `TagName`.
   */
  function LevelOf(tag: HeadingTag): (level: Level)
    ensures TagName(level) == tag
  {
    (tag[1] as int) - ('0' as int)
  }

  /** `TagName` and `LevelOf` are inverse in the other direction too. */
  lemma LevelOfTagName(level: Level)
    ensures LevelOf(TagName(level)) == level
  {
  }

  /**
   * The `if (text)` test: the element is kept when its trimmed text is
   * non-empty, that is, by the contract of `Trim`, when its text is not
   * whitespace only.
   */
  predicate Keeps(e: Element) {
    !AllWs(e.rawText)
  }

  function ToHeading(e: Element): Heading {
    Heading(LevelOf(e.tag), Trim(e.rawText))
  }

  /** A heading as the collection produces it: non-empty text with no whitespace at either end. */
  predicate IsTrimmedHeading(h: Heading) {
    h.text != [] && !IsWs(h.text[0]) && !IsWs(h.text[|h.text| - 1])
  }

  /** The text of such a heading is its own trim. */
  lemma TrimmedHeadingIsFixed(h: Heading)
    requires IsTrimmedHeading(h)
    ensures Trim(h.text) == h.text
  {
    assert [] + h.text + [] == h.text;
    TrimUnique(h.text, [], h.text, []);
  }

  /** A kept element becomes a trimmed heading with non-empty text. */
  lemma KeptIsTrimmed(e: Element)
    requires Keeps(e)
    ensures IsTrimmedHeading(ToHeading(e))
  {
  }

  /**
   * The headings collected from `els`, as a function: the kept elements,
   * converted, in document order. There are no more headings than elements.
   */
  function Filter(els: seq<Element>): (hs: seq<Heading>)
    ensures |hs| <= |els|
  {
    if els == [] then []
    else if Keeps(els[0]) then [ToHeading(els[0])] + Filter(els[1..])
    else Filter(els[1..])
  }

  /** Every collected heading is a trimmed heading with non-empty text. */
  lemma {:induction false} FilterTrimmed(els: seq<Element>)
    ensures forall k :: 0 <= k < |Filter(els)| ==> IsTrimmedHeading(Filter(els)[k])
  {
    if els != [] {
      var rest := Filter(els[1..]);
      FilterTrimmed(els[1..]);
      if Keeps(els[0]) {
        var hs := [ToHeading(els[0])] + rest;
        assert Filter(els) == hs;
        forall k | 0 <= k < |hs| ensures IsTrimmedHeading(hs[k]) {
          if k == 0 { KeptIsTrimmed(els[0]); } else { assert hs[k] == rest[k - 1]; }
        }
      }
    }
  }

  /** Filtering distributes over concatenation: each element is judged on its own. */
  lemma {:induction false} FilterAppend(a: seq<Element>, b: seq<Element>)
    ensures Filter(a + b) == Filter(a) + Filter(b)
  {
    if a == [] {
      assert a + b == b;
    } else {
      assert (a + b)[1..] == a[1..] + b;
      FilterAppend(a[1..], b);
    }
  }

  /**
   * The `.each` loop of the handler: walk the selected elements in order and
   * push `{ level, text }` for each one whose trimmed text is non-empty. The
   * array it builds is `Filter(elements)`.
   */
  method CollectHeadings(elements: seq<Element>) returns (headings: seq<Heading>)
    ensures headings == Filter(elements)
  {
    headings := [];
    for i := 0 to |elements|
      invariant headings == Filter(elements[..i])
    {
      var el := elements[i];
      var level := LevelOf(el.tag);
      var text := Trim(el.rawText);
      if text != [] {
        headings := headings + [Heading(level, text)];
      }
      assert Filter([el]) == if text != [] then [Heading(level, text)] else [];
      assert elements[..i + 1] == elements[..i] + [el];
      FilterAppend(elements[..i], [el]);
    }
    assert elements[..|elements|] == elements;
  }

  /**
   * The positions in `xs` of the items `keep` accepts, in increasing order:
   * each position listed holds an accepted item, the positions are strictly
   * increasing (so none repeats), and every accepted item's position is
   * listed.
   */
  ghost function Positions<T>(xs: seq<T>, keep: T -> bool): (idx: seq<nat>)
    ensures forall k :: 0 <= k < |idx| ==> idx[k] < |xs| && keep(xs[idx[k]])
    ensures forall k, l :: 0 <= k < l < |idx| ==> idx[k] < idx[l]
    ensures forall i :: 0 <= i < |xs| && keep(xs[i]) ==> i in idx
  {
    if xs == [] then []
    else
      var n := |xs| - 1;
      var init := xs[..n];
      var p := Positions(init, keep);
      assert forall k :: 0 <= k < |p| ==> xs[p[k]] == init[p[k]];
      assert forall i :: 0 <= i < n ==> xs[i] == init[i];
      if keep(xs[n]) then p + [n] else p
  }

  /**
   * The collected headings are exactly the kept elements, converted, in
   * their document order: the k-th heading comes from the k-th position
   * holding a kept element. Nothing is reordered, repeated or invented.
   */
  lemma {:induction false} FilterSelects(els: seq<Element>)
    ensures |Filter(els)| == |Positions(els, Keeps)|
    ensures forall k :: 0 <= k < |Filter(els)| ==>
              Filter(els)[k] == ToHeading(els[Positions(els, Keeps)[k]])
  {
    if els != [] {
      var n := |els| - 1;
      var init := els[..n];
      assert init + [els[n]] == els;
      FilterSelects(init);
      FilterAppend(init, [els[n]]);
      var p := Positions(init, Keeps);
      var hs := Filter(init);
      assert Filter(els) == hs + Filter([els[n]]);
      forall k | 0 <= k < |hs|
        ensures Filter(els)[k] == ToHeading(els[Positions(els, Keeps)[k]])
      {
        assert Positions(els, Keeps)[k] == p[k];
        assert els[p[k]] == init[p[k]];
      }
    }
  }

  /** No heading is collected exactly when every element's text is whitespace only. */
  lemma {:induction false} FilterEmptyIff(els: seq<Element>)
    ensures Filter(els) == [] <==> forall i :: 0 <= i < |els| ==> AllWs(els[i].rawText)
  {
    if els != [] {
      FilterEmptyIff(els[1..]);
      assert forall i :: 1 <= i < |els| ==> els[i] == els[1..][i - 1];
    }
  }
}
