/** Searches over raw bytes and the classification of message headings
    (lab32v2/parser/ParserImpl.cpp). A byte string is a `string`, one `char` per byte. */
module Parser {
  import opened Wrappers

  datatype Kind = GetRequest | NotGetRequest | NormalResponse | InvalidMessage

  datatype ParseResult = ParseResult(
    kind: Kind,
    contentLength: nat,
    haveContentLength: bool,
    responseWithError: bool)

  const END_OF_HEADING := "\r\n\r\n"
  const END_OF_BODY := "0\r\n\r\n"
  const CONTENT_LENGTH := "Content-Length: "
  const HOST := "Host: "

  predicate MatchesAt(s: string, pattern: string, k: int) {
    0 <= k && k + |pattern| <= |s| && s[k..k + |pattern|] == pattern
  }

  /** `std::string::find` from a position; -1 is `npos`. */
  function Search(s: string, pattern: string, from: nat): (r: int)
    requires from <= |s|
    ensures r == -1 || (from <= r && MatchesAt(s, pattern, r))
    ensures forall k | from <= k && (r == -1 || k < r) :: !MatchesAt(s, pattern, k)
    decreases |s| - from
  {
    if MatchesAt(s, pattern, from) then from
    else if from == |s| then -1
    else Search(s, pattern, from + 1)
  }

  /** The first match is unique, so an independent witness pins the search down. */
  lemma SearchIs(s: string, pattern: string, r: nat)
    requires MatchesAt(s, pattern, r)
    requires forall k | 0 <= k < r :: !MatchesAt(s, pattern, k)
    ensures Search(s, pattern, 0) == r
  {
    var found := Search(s, pattern, 0);
    assert found == -1 ==> !MatchesAt(s, pattern, r);
  }

  lemma MatchInPrefix(s: string, t: string, pattern: string, k: int)
    requires k + |pattern| <= |s|
    ensures MatchesAt(s, pattern, k) <==> MatchesAt(s + t, pattern, k)
  {
    if 0 <= k {
      assert (s + t)[k..k + |pattern|] == s[k..k + |pattern|];
    }
  }

  /** Position just past the first blank line, if the heading is complete. */
  function FindEndHeading(buf: string): (end: Option<nat>)
    ensures end.Some? ==> 4 <= end.value <= |buf|
  {
    var r := Search(buf, END_OF_HEADING, 0);
    if r == -1 then None else Some(r + 4)
  }

  function FindEndBody(buf: string): (end: Option<nat>)
    ensures end.Some? ==> 5 <= end.value <= |buf|
  {
    var r := Search(buf, END_OF_BODY, 0);
    if r == -1 then None else Some(r + 5)
  }

  /** A heading end, once seen in a stream, never moves when more bytes arrive. */
  lemma HeadingEndIsStable(s: string, t: string)
    requires FindEndHeading(s).Some?
    ensures FindEndHeading(s + t) == FindEndHeading(s)
    ensures (s + t)[..FindEndHeading(s).value] == s[..FindEndHeading(s).value]
  {
    var r := Search(s, END_OF_HEADING, 0);
    MatchInPrefix(s, t, END_OF_HEADING, r);
    forall k | 0 <= k < r ensures !MatchesAt(s + t, END_OF_HEADING, k) {
      MatchInPrefix(s, t, END_OF_HEADING, k);
    }
    SearchIs(s + t, END_OF_HEADING, r);
  }

  /** A prefix shows the heading end exactly when it is long enough to contain it, so the
      chunk in which the proxy first sees the end does not depend on how the stream is cut. */
  lemma HeadingEndInPrefix(s: string, t: string)
    requires FindEndHeading(s + t).Some?
    ensures FindEndHeading(s).Some? <==> FindEndHeading(s + t).value <= |s|
  {
    var r := Search(s + t, END_OF_HEADING, 0);
    if FindEndHeading(s).Some? {
      HeadingEndIsStable(s, t);
    } else if r + 4 <= |s| {
      MatchInPrefix(s, t, END_OF_HEADING, r);
    }
  }

  predicate IsDigit(c: char) { '0' <= c <= '9' }

  /** The longest run of digits at the start of `s` (the group `[\d]*` of the expression). */
  function DigitPrefix(s: string): (d: string)
    ensures d <= s && forall c | c in d :: IsDigit(c)
    ensures |d| < |s| ==> !IsDigit(s[|d|])
  {
    if s != "" && IsDigit(s[0]) then [s[0]] + DigitPrefix(s[1..]) else ""
  }

  /** `atoi` on a run of digits. */
  function DecimalValue(digits: string): nat
    requires forall c | c in digits :: IsDigit(c)
  {
    if digits == "" then 0
    else
      var last := digits[|digits| - 1];
      assert IsDigit(last);
      10 * DecimalValue(digits[..|digits| - 1]) + (last as int - '0' as int)
  }

  function FindContentLength(heading: string): Option<nat> {
    var r := Search(heading, CONTENT_LENGTH, 0);
    if r == -1 then None
    else Some(DecimalValue(DigitPrefix(heading[r + |CONTENT_LENGTH|..])))
  }

  function WithContentLength(kind: Kind, error: bool, heading: string): ParseResult {
    var length := FindContentLength(heading);
    ParseResult(kind, if length.Some? then length.value else 0, length.Some?, error)
  }

  /** Parses a request heading; `None` is the `ParseException` the source throws. */
  function ParsingHeading(heading: string): (r: Option<ParseResult>)
    ensures r.Some? <==> |heading| > 3 && Search(heading, HOST, 0) != -1
    ensures r.Some? ==> (r.value.kind == GetRequest <==> "GET" <= heading)
    ensures r.Some? ==> r.value.kind in {GetRequest, NotGetRequest}
  {
    if |heading| > 3 then
      var kind := if heading[..3] == "GET" then GetRequest else NotGetRequest;
      if Search(heading, HOST, 0) == -1 then None
      else Some(WithContentLength(kind, false, heading))
    else None
  }

  /** Parses a response heading. A heading without "200 OK" counts as an error response. */
  function ParsingResponseHeading(heading: string): (r: ParseResult)
    ensures r.responseWithError <==> Search(heading, "200 OK", 0) == -1
    ensures r.haveContentLength <==> Search(heading, CONTENT_LENGTH, 0) != -1
  {
    if Search(heading, "HTTP/1.1 200 OK", 0) == -1 then
      if Search(heading, "200 OK", 0) != -1 then
        WithContentLength(NormalResponse, false, heading)
      else
        WithContentLength(InvalidMessage, true, heading)
    else
      FullStatusContainsShort(heading);
      WithContentLength(NormalResponse, false, heading)
  }

  lemma FullStatusContainsShort(heading: string)
    requires Search(heading, "HTTP/1.1 200 OK", 0) != -1
    ensures Search(heading, "200 OK", 0) != -1
  {
    var r := Search(heading, "HTTP/1.1 200 OK", 0);
    var whole := heading[r..r + 15];
    assert whole == "HTTP/1.1 200 OK";
    assert heading[r + 9..r + 15] == whole[9..15] == "200 OK";
    assert MatchesAt(heading, "200 OK", r + 9);
  }

  // ----- Content-Length: rendering a number and finding it again -----

  function Render(n: nat): (d: string)
    ensures d != "" && forall c | c in d :: IsDigit(c)
  {
    var last := [(n % 10 + '0' as int) as char];
    if n < 10 then last else Render(n / 10) + last
  }

  lemma {:induction false} DecimalValueOfRender(n: nat)
    ensures DecimalValue(Render(n)) == n
  {
    var d := Render(n);
    if n >= 10 {
      DecimalValueOfRender(n / 10);
      assert d[..|d| - 1] == Render(n / 10);
    }
  }

  lemma {:induction false} DigitPrefixStops(d: string, rest: string)
    requires forall c | c in d :: IsDigit(c)
    requires rest != "" ==> !IsDigit(rest[0])
    ensures DigitPrefix(d + rest) == d
  {
    if d != "" {
      assert (d + rest)[1..] == d[1..] + rest;
      DigitPrefixStops(d[1..], rest);
    } else {
      assert d + rest == rest;
    }
  }

  /** A heading that announces `n` bytes is read as announcing `n` bytes, whatever follows
      the number and whatever precedes the first field name. */
  lemma ContentLengthRoundTrip(before: string, n: nat, after: string)
    requires after != "" ==> !IsDigit(after[0])
    requires forall k | 0 <= k < |before| :: !MatchesAt(before + CONTENT_LENGTH + Render(n) + after, CONTENT_LENGTH, k)
    ensures FindContentLength(before + CONTENT_LENGTH + Render(n) + after) == Some(n)
  {
    var heading := before + CONTENT_LENGTH + Render(n) + after;
    var r := |before|;
    assert heading[r..r + |CONTENT_LENGTH|] == CONTENT_LENGTH;
    SearchIs(heading, CONTENT_LENGTH, r);
    assert heading[r + |CONTENT_LENGTH|..] == Render(n) + after;
    DigitPrefixStops(Render(n), after);
    DecimalValueOfRender(n);
  }

  // ----- What a heading announces, read off its text -----

  /** The first field of that name has the value `digits`. */
  predicate FirstLength(heading: string, before: string, digits: string, after: string) {
    && heading == before + CONTENT_LENGTH + digits + after
    && (forall k | 0 <= k < |before| :: !MatchesAt(heading, CONTENT_LENGTH, k))
    && (forall c | c in digits :: IsDigit(c))
    && (after != "" ==> !IsDigit(after[0]))
  }

  ghost predicate Announces(heading: string, n: nat) {
    exists before, digits, after :: FirstLength(heading, before, digits, after) && DecimalValue(digits) == n
  }

  ghost predicate AnnouncesNothing(heading: string) { forall k :: !MatchesAt(heading, CONTENT_LENGTH, k) }

  lemma FirstLengthIsFound(heading: string, before: string, digits: string, after: string)
    requires FirstLength(heading, before, digits, after)
    ensures FindContentLength(heading) == Some(DecimalValue(digits))
  {
    var r := |before|;
    assert heading[r..r + |CONTENT_LENGTH|] == CONTENT_LENGTH;
    SearchIs(heading, CONTENT_LENGTH, r);
    assert heading[r + |CONTENT_LENGTH|..] == digits + after;
    DigitPrefixStops(digits, after);
  }

  lemma FoundIsFirstLength(heading: string)
    requires Search(heading, CONTENT_LENGTH, 0) != -1
    ensures FindContentLength(heading).Some? && Announces(heading, FindContentLength(heading).value)
  {
    var r := Search(heading, CONTENT_LENGTH, 0);
    var rest := heading[r + |CONTENT_LENGTH|..];
    var digits := DigitPrefix(rest);
    hide Search, DigitPrefix, DecimalValue;
    PartsAreWhole(heading, r, |CONTENT_LENGTH|, |digits|);
    assert rest[..|digits|] == digits;
    assert FirstLength(heading, heading[..r], digits, rest[|digits|..]);
  }

  lemma PartsAreWhole(s: string, r: nat, m: nat, d: nat)
    requires r + m <= |s| && d <= |s[r + m..]|
    ensures s == s[..r] + s[r..r + m] + s[r + m..][..d] + s[r + m..][d..]
  {
    assert s[r + m..][..d] + s[r + m..][d..] == s[r + m..];
  }

  /** The length found is the decimal number behind the first field of that name, whatever surrounds it,
      and none is found exactly if there is no such field. */
  lemma LengthIsAnnounced(heading: string)
    ensures forall n: nat :: Announces(heading, n) <==> FindContentLength(heading) == Some(n)
    ensures FindContentLength(heading).None? <==> AnnouncesNothing(heading)
  {
    forall n: nat ensures Announces(heading, n) <==> FindContentLength(heading) == Some(n) {
      if Announces(heading, n) {
        var before, digits, after :| FirstLength(heading, before, digits, after) && DecimalValue(digits) == n;
        FirstLengthIsFound(heading, before, digits, after);
      }
      if FindContentLength(heading) == Some(n) { FoundIsFirstLength(heading); }
    }
    if FindContentLength(heading).Some? {
      assert MatchesAt(heading, CONTENT_LENGTH, Search(heading, CONTENT_LENGTH, 0));
    }
  }

  /** A request heading that parses has exactly the length it announces, and zero if it announces none. */
  lemma RequestLength(heading: string)
    requires ParsingHeading(heading).Some?
    ensures var p := ParsingHeading(heading).value;
      && (forall n: nat :: Announces(heading, n) <==> p.haveContentLength && p.contentLength == n)
      && (AnnouncesNothing(heading) <==> !p.haveContentLength)
      && (AnnouncesNothing(heading) ==> p.contentLength == 0)
  {
    LengthIsAnnounced(heading);
    hide FindContentLength, Announces, AnnouncesNothing, Search;
  }

  /** And so has every response heading, whether it reports success or not. */
  lemma ResponseLength(heading: string)
    ensures var p := ParsingResponseHeading(heading);
      && (forall n: nat :: Announces(heading, n) <==> p.haveContentLength && p.contentLength == n)
      && (AnnouncesNothing(heading) <==> !p.haveContentLength)
      && (AnnouncesNothing(heading) ==> p.contentLength == 0)
  {
    LengthIsAnnounced(heading);
    hide FindContentLength, Announces, AnnouncesNothing, Search;
  }

  /** In particular a number that has been rendered is read back, in requests and in responses. */
  lemma RenderedIsAnnounced(before: string, n: nat, after: string)
    requires after != "" ==> !IsDigit(after[0])
    requires forall k | 0 <= k < |before| :: !MatchesAt(before + CONTENT_LENGTH + Render(n) + after, CONTENT_LENGTH, k)
    ensures var heading := before + CONTENT_LENGTH + Render(n) + after;
      && Announces(heading, n)
      && (ParsingHeading(heading).Some? ==> ParsingHeading(heading).value.contentLength == n)
      && ParsingResponseHeading(heading).contentLength == n
  {
    var heading := before + CONTENT_LENGTH + Render(n) + after;
    DecimalValueOfRender(n);
    assert FirstLength(heading, before, Render(n), after);
    ResponseLength(heading);
    hide ParsingResponseHeading, Search, FindContentLength;
    if ParsingHeading(heading).Some? { RequestLength(heading); }
  }

  /** The heading ends behind the first blank line, and is not complete exactly if there is none. */
  lemma HeadingEndIff(buf: string)
    ensures forall end: nat :: FindEndHeading(buf) == Some(end) <==>
      MatchesAt(buf, "\r\n\r\n", end - 4) && forall k | k < end - 4 :: !MatchesAt(buf, "\r\n\r\n", k)
    ensures FindEndHeading(buf).None? <==> forall k :: !MatchesAt(buf, "\r\n\r\n", k)
  {
    forall end: nat ensures FindEndHeading(buf) == Some(end) <==>
      MatchesAt(buf, "\r\n\r\n", end - 4) && forall k | k < end - 4 :: !MatchesAt(buf, "\r\n\r\n", k)
    {
      if MatchesAt(buf, "\r\n\r\n", end - 4) && forall k | k < end - 4 :: !MatchesAt(buf, "\r\n\r\n", k) {
        SearchIs(buf, END_OF_HEADING, end - 4);
      }
    }
    NoneIffNoMatch(buf, END_OF_HEADING);
  }

  lemma NoneIffNoMatch(buf: string, pattern: string)
    ensures Search(buf, pattern, 0) == -1 <==> forall k :: !MatchesAt(buf, pattern, k)
  {
    if Search(buf, pattern, 0) != -1 { assert MatchesAt(buf, pattern, Search(buf, pattern, 0)); }
  }

  /** The end of a body without a length is seen exactly if the buffer holds the last chunk's mark. */
  lemma BodyEndIff(buf: string)
    ensures FindEndBody(buf).Some? <==> exists k :: MatchesAt(buf, "0\r\n\r\n", k)
  {
    NoneIffNoMatch(buf, END_OF_BODY);
  }
}
