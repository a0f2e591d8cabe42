/**
 * The Markdown outline: a fixed `## Contents` header, then one ATX heading
 * (CommonMark section 4.2) per collected heading, each followed by a blank
 * line.
 */
module Markdown {
  import opened Wrappers
  import opened Text
  import opened Headings

  /** The fixed header line and blank line: the first 13 characters of every outline. */
  const Header: string := "## Contents\n\n"

  /** One heading line: `level` hash marks, a space, the text, then a line feed and a blank line. */
  function Line(h: Heading): string {
    Repeat('#', h.level) + " " + h.text + "\n\n"
  }

  /** The heading lines, concatenated in order. */
  function Lines(hs: seq<Heading>): string {
    if hs == [] then [] else Line(hs[0]) + Lines(hs[1..])
  }

  /** The whole response body for a list of headings. */
  function Render(hs: seq<Heading>): string {
    Header + Lines(hs)
  }

  /** Concatenating heading lists concatenates their lines. */
  lemma {:induction false} LinesAppend(a: seq<Heading>, b: seq<Heading>)
    ensures Lines(a + b) == Lines(a) + Lines(b)
  {
    if a == [] {
      assert a + b == b;
    } else {
      assert (a + b)[1..] == a[1..] + b;
      LinesAppend(a[1..], b);
    }
  }

  /**
   * The `forEach` loop of the handler: start from the header and append one
   * line per heading with `+=`. The string it builds is `Render(headings)`.
   */
  method RenderMarkdown(headings: seq<Heading>) returns (markdown: string)
    ensures markdown == Render(headings)
  {
    markdown := Header;
    for i := 0 to |headings|
      invariant markdown == Header + Lines(headings[..i])
    {
      var h := headings[i];
      markdown := markdown + (Repeat('#', h.level) + " " + h.text + "\n\n");
      assert Lines([h]) == Line(h);
      assert headings[..i + 1] == headings[..i] + [h];
      LinesAppend(headings[..i], [h]);
    }
    assert headings[..|headings|] == headings;
  }

  /** The characters each heading contributes: its level in `#`, a space, its text, two line feeds. */
  function Size(hs: seq<Heading>): nat {
    if hs == [] then 0 else hs[0].level + 3 + |hs[0].text| + Size(hs[1..])
  }

  /** The body is the 13-character header plus, per heading, level + 3 + |text| characters. */
  lemma {:induction false} RenderLength(hs: seq<Heading>)
    ensures |Render(hs)| == 13 + Size(hs)
  {
    LinesLength(hs);
  }

  lemma {:induction false} LinesLength(hs: seq<Heading>)
    ensures |Lines(hs)| == Size(hs)
  {
    if hs != [] {
      LinesLength(hs[1..]);
    }
  }

  // Reading an outline back. Rendering loses nothing as long as no heading
  // text holds a line feed: the parser below recovers the heading list.

  /** The number of `#` characters `s` starts with. */
  function CountHashes(s: string): (n: nat)
    ensures n <= |s|
    ensures forall k :: 0 <= k < n ==> s[k] == '#'
    ensures n < |s| ==> s[n] != '#'
  {
    if s != [] && s[0] == '#' then
      var n := 1 + CountHashes(s[1..]);
      assert forall k :: 1 <= k < n ==> s[k] == s[1..][k - 1];
      n
    else 0
  }

  /** The position of the first line feed in `s`, or `|s|`. */
  function IndexOfLf(s: string): (n: nat)
    ensures n <= |s|
    ensures forall k :: 0 <= k < n ==> s[k] != '\n'
    ensures n < |s| ==> s[n] == '\n'
  {
    if s != [] && s[0] != '\n' then
      var n := 1 + IndexOfLf(s[1..]);
      assert forall k :: 1 <= k < n ==> s[k] == s[1..][k - 1];
      n
    else 0
  }

  /** Parse a sequence of `#…# text\n\n` lines back into headings. */
  function ParseLines(s: string): Option<seq<Heading>>
    decreases |s|
  {
    if s == [] then Some([])
    else
      var n := CountHashes(s);
      if n < 1 || 6 < n || n == |s| || s[n] != ' ' then None
      else
        var rest := s[n + 1..];
        var t := IndexOfLf(rest);
        if |rest| < t + 2 || rest[t + 1] != '\n' then None
        else
          match ParseLines(rest[t + 2..])
          case None => None
          case Some(tail) => Some([Heading(n, rest[..t])] + tail)
  }

  /** Parse a whole outline: the header, then the heading lines. */
  function ParseOutline(md: string): Option<seq<Heading>> {
    if |md| < |Header| || md[..|Header|] != Header then None
    else ParseLines(md[|Header|..])
  }

  predicate NoLineFeed(h: Heading) {
    forall k :: 0 <= k < |h.text| ==> h.text[k] != '\n'
  }

  /** One rendered line parses back to its heading, followed by whatever the rest parses to. */
  lemma ParseLine(h: Heading, tail: string)
    requires NoLineFeed(h)
    ensures ParseLines(Line(h) + tail) ==
              match ParseLines(tail)
              case None => None
              case Some(hs) => Some([h] + hs)
  {
    var s := Line(h) + tail;
    var n := CountHashes(s);
    var l := h.level;
    assert s[..l] == Repeat('#', l);
    assert s[l] == ' ';
    assert n == l;
    var rest := s[n + 1..];
    assert rest == h.text + "\n\n" + tail;
    var t := IndexOfLf(rest);
    assert rest[|h.text|] == '\n';
    assert t == |h.text|;
    assert rest[t + 1] == '\n';
    assert rest[..t] == h.text;
    assert rest[t + 2..] == tail;
  }

  /** Reading a rendered outline gives back the heading list it was rendered from, when no heading text holds a line feed. */
  lemma {:induction false} ParseRender(hs: seq<Heading>)
    requires forall k :: 0 <= k < |hs| ==> NoLineFeed(hs[k])
    ensures ParseOutline(Render(hs)) == Some(hs)
  {
    var md := Render(hs);
    assert md[..|Header|] == Header;
    assert md[|Header|..] == Lines(hs);
    ParseLinesLines(hs);
  }

  lemma {:induction false} ParseLinesLines(hs: seq<Heading>)
    requires forall k :: 0 <= k < |hs| ==> NoLineFeed(hs[k])
    ensures ParseLines(Lines(hs)) == Some(hs)
  {
    if hs != [] {
      ParseLinesLines(hs[1..]);
      ParseLine(hs[0], Lines(hs[1..]));
      assert [hs[0]] + hs[1..] == hs;
    }
  }
}
