/**
 * The `GET /api/outline?country=<name>` handler as one pure function from
 * the query parameter and the outcome of the upstream fetch to the
 * response. The decision ladder (`Classify`) is kept apart from the mapping
 * of each outcome to a status, headers and body (`Respond`); `Serve` runs
 * the same pipeline step by step, calling the two loops.
 */
module Handler {
  import opened Wrappers
  import opened Text
  import opened Query
  import opened Headings
  import opened Markdown

  /** What the HTTP client gives back when it throws: `error.code`, `error.response.status`, `error.message`. */
  datatype FetchError = FetchError(code: Option<string>, response: Option<UpstreamReply>, message: string)

  datatype UpstreamReply = UpstreamReply(status: int)

  /**
   * The outcome of the article fetch: either the client resolved with a
   * status and the page, given here as the elements the heading selector
   * picks out of it in document order, or it threw.
   */
  datatype Fetch =
    | Fetched(status: int, elements: seq<Element>)
    | Threw(error: FetchError)

  /** Every way a request can end. */
  datatype Outcome =
    | MissingCountry
    | InvalidCountry
    | PageNotFound
    | NoHeadings
    | Outline(headings: seq<Heading>)
    | ConnectFailed
    | UpstreamError(upstreamStatus: int)
    | Internal(message: string)

  /** The one field a JSON error body carries beside `error`. */
  datatype Extra = NoExtra | Example(usage: string) | Status(code: int) | Details(message: string)

  /** A response body: a JSON error object, or the Markdown outline document. */
  datatype Body = Json(error: string, extra: Extra) | Doc(markdown: string)

  datatype Response = Response(status: int, headers: seq<(string, string)>, body: Body)

  /** The CORS headers, set first on every response. */
  const Cors: seq<(string, string)> :=
    [("Access-Control-Allow-Origin", "*"), ("Access-Control-Allow-Methods", "GET")]

  const MarkdownType: (string, string) := ("Content-Type", "text/markdown")

  /** The catch block: `ENOTFOUND` first, then an error that carries a response, then anything else. */
  function Caught(e: FetchError): (o: Outcome)
    ensures o.ConnectFailed? || o.UpstreamError? || o.Internal?
    ensures o.ConnectFailed? <==> e.code == Some("ENOTFOUND")
    ensures o.UpstreamError? <==> e.code != Some("ENOTFOUND") && e.response.Some?
    ensures o.UpstreamError? ==> o.upstreamStatus == e.response.value.status
    ensures o.Internal? ==> o.message == e.message
  {
    if e.code == Some("ENOTFOUND") then ConnectFailed
    else if e.response.Some? then UpstreamError(e.response.value.status)
    else Internal(e.message)
  }

  /**
   * The decision ladder: the parameter gates first, then the fetch, then
   * the upstream status, then the collected headings.
   */
  function Classify(country: Option<string>, fetch: Fetch): (o: Outcome)
    ensures o.Outline? ==> o.headings != [] && fetch.Fetched? && o.headings == Filter(fetch.elements)
  {
    match ValidateCountry(country)
    case Failure(MissingParameter) => MissingCountry
    case Failure(InvalidFormat) => InvalidCountry
    case Success(_) =>
      match fetch
      case Threw(e) => Caught(e)
      case Fetched(status, elements) =>
        if status != 200 then PageNotFound
        else
          var headings := Filter(elements);
          if |headings| == 0 then NoHeadings else Outline(headings)
  }

  /** The status, headers and body the handler writes for each outcome. */
  function Respond(o: Outcome): (r: Response)
    ensures |r.headers| >= 2 && r.headers[..2] == Cors
    ensures r.body.Doc? <==> o.Outline?
    ensures r.status == 200 <==> o.Outline?
  {
    match o
    case MissingCountry =>
      Response(400, Cors, Json("Country parameter is required", Example(ExampleUsage)))
    case InvalidCountry =>
      Response(400, Cors, Json("Invalid country name format", NoExtra))
    case PageNotFound =>
      Response(404, Cors, Json("Country page not found on Wikipedia", NoExtra))
    case NoHeadings =>
      Response(404, Cors, Json("No headings found for this country", NoExtra))
    case Outline(headings) =>
      Response(200, Cors + [MarkdownType], Doc(Render(headings)))
    case ConnectFailed =>
      Response(502, Cors, Json("Failed to connect to Wikipedia", NoExtra))
    case UpstreamError(status) =>
      Response(502, Cors, Json("Wikipedia returned an error", Status(status)))
    case Internal(message) =>
      Response(500, Cors, Json("Internal server error", Details(message)))
  }

  /** The handler. */
  function Handle(country: Option<string>, fetch: Fetch): Response {
    Respond(Classify(country, fetch))
  }

  /**
   * The handler as the source runs it: early returns, the `.each` loop that
   * collects the headings and the `forEach` loop that builds the body. It
   * answers what `Handle` answers.
   */
  method Serve(country: Option<string>, fetch: Fetch) returns (r: Response)
    ensures r == Handle(country, fetch)
  {
    if country == None || country == Some("") {
      assert Classify(country, fetch) == MissingCountry;
      return Response(400, Cors, Json("Country parameter is required", Example(ExampleUsage)));
    }
    if !MatchesCountryPattern(country.value) {
      assert Classify(country, fetch) == InvalidCountry;
      return Response(400, Cors, Json("Invalid country name format", NoExtra));
    }
    assert ValidateCountry(country) == Success(country.value);
    if fetch.Threw? {
      var e := fetch.error;
      assert Classify(country, fetch) == Caught(e);
      if e.code == Some("ENOTFOUND") {
        return Response(502, Cors, Json("Failed to connect to Wikipedia", NoExtra));
      }
      if e.response.Some? {
        return Response(502, Cors, Json("Wikipedia returned an error", Status(e.response.value.status)));
      }
      return Response(500, Cors, Json("Internal server error", Details(e.message)));
    }
    if fetch.status != 200 {
      assert Classify(country, fetch) == PageNotFound;
      return Response(404, Cors, Json("Country page not found on Wikipedia", NoExtra));
    }
    var headings := CollectHeadings(fetch.elements);
    if |headings| == 0 {
      assert Classify(country, fetch) == NoHeadings;
      return Response(404, Cors, Json("No headings found for this country", NoExtra));
    }
    assert Classify(country, fetch) == Outline(headings);
    var markdown := RenderMarkdown(headings);
    r := Response(200, Cors + [MarkdownType], Doc(markdown));
  }

  // Properties of the handler.

  predicate IsValid(country: Option<string>) {
    ValidateCountry(country).Success?
  }

  /** Every response, success or failure, starts with the two CORS headers. */
  lemma CorsAlways(country: Option<string>, fetch: Fetch)
    ensures Handle(country, fetch).headers[..2] == Cors
    ensures ("Access-Control-Allow-Origin", "*") in Handle(country, fetch).headers
  {
    assert Handle(country, fetch).headers[0] == Cors[0];
  }

  /** A missing or empty parameter gives 400 with the usage example, whatever the fetch would have done. */
  lemma MissingParameterWins(country: Option<string>, fetch: Fetch)
    requires country == None || country == Some("")
    ensures Handle(country, fetch) ==
              Response(400, Cors, Json("Country parameter is required", Example(ExampleUsage)))
  {
  }

  /**
   * A non-empty parameter holding a character outside `[a-zA-Z\s-]` gives
   * 400 "Invalid country name format", and the fetch outcome plays no part.
   */
  lemma InvalidFormatBeforeFetch(c: string, k: nat, fetch: Fetch, other: Fetch)
    requires c != "" && k < |c| && !IsCountryChar(c[k])
    ensures Handle(Some(c), fetch) == Response(400, Cors, Json("Invalid country name format", NoExtra))
    ensures Handle(Some(c), fetch) == Handle(Some(c), other)
  {
  }

  /** A parameter is accepted exactly when it is non-empty and every character is in the class. */
  lemma ValidIff(c: string)
    ensures IsValid(Some(c)) <==> c != [] && forall k :: 0 <= k < |c| ==> IsCountryChar(c[k])
  {
  }

  /** A resolved fetch with a status other than 200 gives 404; the page's headings are never looked at. */
  lemma UpstreamNot200(country: Option<string>, status: int, els: seq<Element>, other: seq<Element>)
    requires IsValid(country) && status != 200
    ensures Handle(country, Fetched(status, els)) ==
              Response(404, Cors, Json("Country page not found on Wikipedia", NoExtra))
    ensures Handle(country, Fetched(status, els)) == Handle(country, Fetched(status, other))
  {
  }

  /**
   * With a page fetched, "No headings found" (404) is answered exactly when
   * every selected heading's text is whitespace only, and the outline
   * otherwise, as `text/markdown` with status 200.
   */
  lemma {:induction false} NoHeadingsIff(country: Option<string>, els: seq<Element>)
    requires IsValid(country)
    ensures Handle(country, Fetched(200, els)).status == 404 <==>
              forall i :: 0 <= i < |els| ==> AllWs(els[i].rawText)
    ensures Handle(country, Fetched(200, els)) ==
              if Filter(els) == [] then Response(404, Cors, Json("No headings found for this country", NoExtra))
              else Response(200, Cors + [MarkdownType], Doc(Render(Filter(els))))
  {
    FilterEmptyIff(els);
  }

  /** Status 200 is answered exactly for a valid parameter, a 200 fetch and at least one kept heading. */
  lemma SuccessIff(country: Option<string>, fetch: Fetch)
    ensures Handle(country, fetch).status == 200 <==>
              IsValid(country) && fetch.Fetched? && fetch.status == 200 && Filter(fetch.elements) != []
    ensures Handle(country, fetch).status == 200 ==>
              Handle(country, fetch).headers == Cors + [MarkdownType]
  {
  }

  /** The thrown-error ladder, with `ENOTFOUND` winning even over an attached response. */
  lemma ThrownErrors(country: Option<string>, e: FetchError)
    requires IsValid(country)
    ensures e.code == Some("ENOTFOUND") ==>
              Handle(country, Threw(e)) == Response(502, Cors, Json("Failed to connect to Wikipedia", NoExtra))
    ensures e.code != Some("ENOTFOUND") && e.response.Some? ==>
              Handle(country, Threw(e)) ==
                Response(502, Cors, Json("Wikipedia returned an error", Status(e.response.value.status)))
    ensures e.code != Some("ENOTFOUND") && e.response.None? ==>
              Handle(country, Threw(e)) == Response(500, Cors, Json("Internal server error", Details(e.message)))
  {
  }

  /**
   * A successful body is the header followed by one line per kept element,
   * in document order, and it has 13 + the sum of level + 3 + |text|
   * characters.
   */
  lemma SuccessBody(country: Option<string>, els: seq<Element>)
    requires IsValid(country) && Filter(els) != []
    ensures Handle(country, Fetched(200, els)) == Response(200, Cors + [MarkdownType], Doc(Render(Filter(els))))
    ensures |Handle(country, Fetched(200, els)).body.markdown| == 13 + Size(Filter(els))
  {
    assert Classify(country, Fetched(200, els)) == Outline(Filter(els));
    RenderLength(Filter(els));
  }

  /** The example page: `h1 "A"`, `h2 "B"`, a whitespace-only `h3` and `h2 "C"`. */
  const ExampleElements: seq<Element> :=
    [Element("h1", "A"), Element("h2", "B"), Element("h3", " "), Element("h2", "C")]

  lemma ExampleHeadings()
    ensures Filter(ExampleElements) == [Heading(1, "A"), Heading(2, "B"), Heading(2, "C")]
  {
    var els := ExampleElements;
    SingleLetter('A');
    SingleLetter('B');
    SingleLetter('C');
    assert AllWs(" ");
    assert Filter(els[4..]) == [];
    assert Filter(els[3..]) == [Heading(2, "C")];
    assert Filter(els[2..]) == [Heading(2, "C")];
    assert Filter(els[1..]) == [Heading(2, "B"), Heading(2, "C")];
  }

  lemma SingleLetter(c: char)
    requires 'A' <= c <= 'Z'
    ensures !AllWs([c]) && Trim([c]) == [c]
  {
    assert !IsWs([c][0]);
    assert FirstNonWs([c]) == 0 && EndNonWs([c]) == 1;
  }

  lemma ExampleLines()
    ensures Lines([Heading(1, "A"), Heading(2, "B"), Heading(2, "C")]) == "# A\n\n## B\n\n## C\n\n"
  {
    var hs := [Heading(1, "A"), Heading(2, "B"), Heading(2, "C")];
    assert Line(hs[0]) == "# A\n\n" by { assert Repeat('#', 1) == "#"; }
    assert Line(hs[1]) == "## B\n\n" && Line(hs[2]) == "## C\n\n" by { assert Repeat('#', 2) == "##"; }
    assert Lines(hs[2..]) == "## C\n\n" by { assert hs[2..][1..] == []; }
    assert Lines(hs[1..]) == "## B\n\n## C\n\n" by { assert hs[1..][1..] == hs[2..]; }
  }

  lemma ExampleRender()
    ensures Render([Heading(1, "A"), Heading(2, "B"), Heading(2, "C")]) ==
            "## Contents\n\n# A\n\n## B\n\n## C\n\n"
  {
    ExampleLines();
  }

  /**
   * Headings `h1 "A"`, `h2 "B"`, a whitespace-only `h3` and `h2 "C"` render
   * to exactly `## Contents\n\n# A\n\n## B\n\n## C\n\n`.
   */
  lemma ExampleOutline()
    ensures Handle(Some("Germany"), Fetched(200, ExampleElements)) ==
            Response(200, Cors + [MarkdownType], Doc("## Contents\n\n# A\n\n## B\n\n## C\n\n"))
  {
    assert MatchesCountryPattern("Germany");
    ExampleHeadings();
    ExampleRender();
  }
}
