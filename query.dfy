/**
 * The two gates the handler puts in front of the fetch: the `country` query
 * parameter must be present and non-empty, and it must match the anchored
 * allow-list pattern `^[a-zA-Z\s-]+$`.
 */
module Query {
  import opened Wrappers
  import opened Text

  /** The usage hint returned with a missing parameter. */
  const ExampleUsage := "/api/outline?country=Germany"

  datatype QueryError = MissingParameter | InvalidFormat

  /** `[a-zA-Z]`, the literal ASCII ranges. */
  predicate IsAsciiLetter(c: char) {
    'a' <= c <= 'z' || 'A' <= c <= 'Z'
  }

  /** One character of the class `[a-zA-Z\s-]`. */
  predicate IsCountryChar(c: char) {
    IsAsciiLetter(c) || IsWs(c) || c == '-'
  }

  /**
   * `^[a-zA-Z\s-]+$` without the multiline flag: one or more characters of
   * the class, from the first character of the input to the last.
   */
  predicate MatchesCountryPattern(s: string) {
    |s| > 0 && forall k :: 0 <= k < |s| ==> IsCountryChar(s[k])
  }

  /**
   * The validation ladder: `!country` is tested first (an absent parameter
   * and the empty string are both falsy), the pattern second. On success the
   * parameter is passed on unchanged.
   */
  function ValidateCountry(country: Option<string>): (r: Result<string, QueryError>)
    ensures r == Failure(MissingParameter) <==> country == None || country == Some("")
    ensures r == Failure(InvalidFormat) <==>
              country.Some? && country.value != "" && !MatchesCountryPattern(country.value)
    ensures r.Success? ==> country == Some(r.value) && MatchesCountryPattern(r.value)
  {
    match country
    case None => Failure(MissingParameter)
    case Some(c) =>
      if c == "" then Failure(MissingParameter)
      else if !MatchesCountryPattern(c) then Failure(InvalidFormat)
      else Success(c)
  }

  /**
   * A conservative set of characters to keep out of the article name: the
   * reserved characters of RFC 3986 (section 2.2), among them the path, query
   * and fragment delimiters; the escape character `%`; the characters that
   * RFC 3986 does not allow in a URI at all (double quote, `<`, `>`,
   * backslash, `^`, backquote, `{`, `|`, `}`); `.`, which forms the
   * dot-segments of a path (section 3.3); and `~`.
   */
  predicate IsUrlDelimiter(c: char) {
    c in {
      '/', '?', '#', '%', '&', '=', '+', ':', ';', '@', ',',
      '.', '[', ']', '!', '$', '\'', '(', ')', '*', '\"', '<',
      '>', '\\', '^', '`', '{', '|', '}', '~'
    }
  }

  /**
   * What the allow-list is for: a country name that passes validation holds
   * none of the URL delimiters, so it can only name one article.
   */
  lemma ValidatedCountryIsPathSafe(country: Option<string>)
    requires ValidateCountry(country).Success?
    ensures forall k :: 0 <= k < |country.value| ==> !IsUrlDelimiter(country.value[k])
  {
    var c := country.value;
    forall k | 0 <= k < |c| ensures !IsUrlDelimiter(c[k]) {
      assert IsCountryChar(c[k]);
    }
  }
}
