/** A complete run for one song: one search section, one hit, one lyrics
    container holding a single `<br>`. */
module Scenario {
  import opened Results
  import opened Search
  import opened Markup
  import opened Whitespace
  import opened Extract
  import opened Fetch
  import opened Page
  import opened Strings

  const SongUrl: string := "https://genius.com/Beatles-yesterday-lyrics"
  const FirstLine: string := "Yesterday"
  const SecondLine: string := "All my troubles seemed so far away"
  const TwoLines: string := FirstLine + "\n" + SecondLine

  const SongQuery: string := "Yesterday The Beatles"

  /** A search endpoint that answers the query for this song with one
      `"song"` section holding one hit, and fails every other query. */
  function SearchStub(query: string): Result<SearchResponse> {
    if query == SongQuery then Ok(SearchResponse([Section("song", [Hit(Some(SongRef(SongUrl)))])]))
    else Err("Request failed with status code 400")
  }

  /** A site whose song page has one lyrics container and whose other pages
      fail. */
  function PageStub(url: string): Result<seq<string>> {
    if url == SongUrl then Ok([FirstLine + "<br>" + SecondLine])
    else Err("Request failed with status code 404")
  }

  /** The container's text is the two lines joined by one newline. */
  lemma YesterdayContainer()
    ensures FormatContainer(FirstLine + "<br>" + SecondLine) == TwoLines
  {
    assert '<' !in FirstLine;
    assert '<' !in SecondLine;
    FormatBrokenLine(FirstLine, SecondLine);
  }

  /** The run returns the two lines joined by one newline. */
  lemma YesterdayRun()
    ensures FetchOutcome("Yesterday", "The Beatles", SearchStub, PageStub) == Ok(TwoLines)
  {
    assert QueryTerm("Yesterday", "The Beatles") == SongQuery;
    var response := SearchStub(QueryTerm("Yesterday", "The Beatles")).value;
    assert FindSection(response.sections, SongKind) == Some(0);
    var html := FirstLine + "<br>" + SecondLine;
    var text := TwoLines;
    YesterdayContainer();
    AccumulatedSingle(html);
    assert Accumulated([html]) == [] + text + "\n\n";
    TrimUnique([], text, "\n\n");
  }

  /** Another spelling of the artist yields another search term, which the
      endpoint refuses; the run reports that failure. */
  lemma OtherQueryFails()
    ensures FetchOutcome("Yesterday", "Beatles", SearchStub, PageStub)
      == Err(FailurePrefix + "Request failed with status code 400")
  {
    assert QueryTerm("Yesterday", "Beatles") != SongQuery by {
      assert |QueryTerm("Yesterday", "Beatles")| != |SongQuery|;
    }
  }

  /** The document shows the heading "Yesterday - The Beatles". */
  lemma YesterdayHeading()
    ensures Contains(LyricsDocument(TwoLines, "Yesterday", "The Beatles"), "<h1>Yesterday - The Beatles</h1>")
  {
    DocumentShowsInputs(TwoLines, "Yesterday", "The Beatles");
    assert "<h1>" + "Yesterday" == "<h1>Yesterday";
    assert "<h1>Yesterday" + " - " == "<h1>Yesterday - ";
    assert "<h1>Yesterday - " + "The Beatles" == "<h1>Yesterday - The Beatles";
    assert "<h1>Yesterday - The Beatles" + "</h1>" == "<h1>Yesterday - The Beatles</h1>";
  }

  /** The document shows the lyrics inside the `lyrics` block. */
  lemma YesterdayBody()
    ensures Contains(LyricsDocument(TwoLines, "Yesterday", "The Beatles"), "<div id=\"lyrics\">" + TwoLines + "</div>")
  {
    DocumentShowsInputs(TwoLines, "Yesterday", "The Beatles");
  }
}
