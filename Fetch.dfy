/** `fetchLyrics` (loafy.js): search, select the song, fetch its page,
    extract and trim the lyrics, and wrap every failure. */
module Fetch {
  import opened Results
  import opened Search
  import opened Markup
  import opened Whitespace
  import opened Extract
  import opened Strings

  const LyricsNotFound: string := "Lyrics not found on the page."
  const FailurePrefix: string := "Failed to fetch lyrics: "

  /** The search term `${songName} ${artistName}`, before URL-encoding. */
  function QueryTerm(songName: string, artistName: string): string {
    songName + " " + artistName
  }

  /** The body of the `try` block. The two network requests are parameters:
      `searchGenius` maps a search term to the endpoint's parsed response or
      to the request's error message, and `fetchContainers` maps a page URL
      to the inner HTML of the page's lyrics containers, in document order,
      or to the request's error message. */
  function FetchAttempt(songName: string, artistName: string,
                        searchGenius: string -> Result<SearchResponse>,
                        fetchContainers: string -> Result<seq<string>>): Result<string>
  {
    match searchGenius(QueryTerm(songName, artistName))
    case Err(cause) => Err(cause)
    case Ok(response) =>
      match SelectSong(response)
      case Err(cause) => Err(cause)
      case Ok(song) =>
        match fetchContainers(song.url)
        case Err(cause) => Err(cause)
        case Ok(containers) =>
          var lyrics := Accumulated(containers);
          if Trim(lyrics) == [] then Err(LyricsNotFound) else Ok(Trim(lyrics))
  }

  /** `fetchLyrics` as a whole: the `try` block with its `catch`, which
      re-raises every failure under the fixed prefix. */
  function FetchOutcome(songName: string, artistName: string,
                        searchGenius: string -> Result<SearchResponse>,
                        fetchContainers: string -> Result<seq<string>>): (r: Result<string>)
    ensures r.Err? ==> |r.message| >= |FailurePrefix| && r.message[..|FailurePrefix|] == FailurePrefix
    ensures r.Ok? ==> r.value != [] && IsTrimmed(r.value)
  {
    match FetchAttempt(songName, artistName, searchGenius, fetchContainers)
    case Ok(lyrics) => Ok(lyrics)
    case Err(cause) => Err(FailurePrefix + cause)
  }

  /** `fetchLyrics`, step by step, with the container loop of
      `ExtractLyrics`. */
  method FetchLyrics(songName: string, artistName: string,
                     searchGenius: string -> Result<SearchResponse>,
                     fetchContainers: string -> Result<seq<string>>) returns (r: Result<string>)
    ensures r == FetchOutcome(songName, artistName, searchGenius, fetchContainers)
    ensures r.Ok? ==> r.value != [] && IsTrimmed(r.value) && NoTag(r.value)
    ensures r.Err? ==> |r.message| >= |FailurePrefix| && r.message[..|FailurePrefix|] == FailurePrefix
  {
    var search := searchGenius(QueryTerm(songName, artistName));
    if search.Err? {
      return Err(FailurePrefix + search.message);
    }
    var song := SelectSong(search.value);
    if song.Err? {
      return Err(FailurePrefix + song.message);
    }
    var page := fetchContainers(song.value.url);
    if page.Err? {
      return Err(FailurePrefix + page.message);
    }
    var lyrics := ExtractLyrics(page.value);
    var trimmed := Trim(lyrics);
    if trimmed == [] {
      return Err(FailurePrefix + LyricsNotFound);
    }
    LyricsTagFree(page.value);
    return Ok(trimmed);
  }

  /** The trimmed lyrics hold no tag. */
  lemma LyricsTagFree(containers: seq<string>)
    ensures NoTag(Trim(Accumulated(containers)))
  {
    AccumulatedTagFree(containers);
    TrimTagFree(Accumulated(containers));
    TagFreeIsNoTag(Trim(Accumulated(containers)));
  }

  /** Every failure of the attempt surfaces as exactly the prefix followed by
      the underlying message, and a success passes through unchanged. */
  lemma FailuresWrapped(songName: string, artistName: string,
                        searchGenius: string -> Result<SearchResponse>,
                        fetchContainers: string -> Result<seq<string>>)
    ensures FetchOutcome(songName, artistName, searchGenius, fetchContainers).Err? <==>
      FetchAttempt(songName, artistName, searchGenius, fetchContainers).Err?
    ensures FetchAttempt(songName, artistName, searchGenius, fetchContainers).Err? ==>
      FetchOutcome(songName, artistName, searchGenius, fetchContainers).message ==
      FailurePrefix + FetchAttempt(songName, artistName, searchGenius, fetchContainers).message
    ensures FetchAttempt(songName, artistName, searchGenius, fetchContainers).Ok? ==>
      FetchOutcome(songName, artistName, searchGenius, fetchContainers) ==
      FetchAttempt(songName, artistName, searchGenius, fetchContainers)
  {
  }

  /** A failed search request is reported with its own message. */
  lemma SearchFailureReported(songName: string, artistName: string,
                              searchGenius: string -> Result<SearchResponse>,
                              fetchContainers: string -> Result<seq<string>>)
    requires searchGenius(QueryTerm(songName, artistName)).Err?
    ensures FetchOutcome(songName, artistName, searchGenius, fetchContainers) ==
      Err(FailurePrefix + searchGenius(QueryTerm(songName, artistName)).message)
  {
  }

  /** When no song is selected the run fails with "Song not found on
      Genius." and the lyrics page is never requested: the outcome does not
      depend on the page fetcher at all. */
  lemma SongNotFoundReported(songName: string, artistName: string,
                             searchGenius: string -> Result<SearchResponse>,
                             fetchContainers: string -> Result<seq<string>>,
                             otherFetch: string -> Result<seq<string>>)
    requires searchGenius(QueryTerm(songName, artistName)).Ok?
    requires SelectSong(searchGenius(QueryTerm(songName, artistName)).value).Err?
    ensures FetchOutcome(songName, artistName, searchGenius, fetchContainers) ==
      Err(FailurePrefix + SongNotFound)
    ensures FetchOutcome(songName, artistName, searchGenius, fetchContainers) ==
      FetchOutcome(songName, artistName, searchGenius, otherFetch)
  {
  }

  /** A failed page request is reported with its own message. */
  lemma PageFailureReported(songName: string, artistName: string,
                            searchGenius: string -> Result<SearchResponse>,
                            fetchContainers: string -> Result<seq<string>>,
                            song: SongRef)
    requires searchGenius(QueryTerm(songName, artistName)).Ok?
    requires SelectSong(searchGenius(QueryTerm(songName, artistName)).value) == Ok(song)
    requires fetchContainers(song.url).Err?
    ensures FetchOutcome(songName, artistName, searchGenius, fetchContainers) ==
      Err(FailurePrefix + fetchContainers(song.url).message)
  {
  }

  /** Once the page's containers are in hand, the run fails with "Lyrics not
      found on the page." exactly when their accumulated text is all
      whitespace, in particular when there are no containers. */
  lemma LyricsNotFoundReported(songName: string, artistName: string,
                               searchGenius: string -> Result<SearchResponse>,
                               fetchContainers: string -> Result<seq<string>>,
                               song: SongRef, containers: seq<string>)
    requires searchGenius(QueryTerm(songName, artistName)).Ok?
    requires SelectSong(searchGenius(QueryTerm(songName, artistName)).value) == Ok(song)
    requires fetchContainers(song.url) == Ok(containers)
    ensures (FetchOutcome(songName, artistName, searchGenius, fetchContainers) ==
             Err(FailurePrefix + LyricsNotFound)) <==> AllWhite(Accumulated(containers))
    ensures containers == [] ==>
      FetchOutcome(songName, artistName, searchGenius, fetchContainers) ==
      Err(FailurePrefix + LyricsNotFound)
  {
  }

  /** Otherwise the run returns the accumulated text trimmed: non-empty, with
      no whitespace at either end, a contiguous piece of the accumulated
      text with only whitespace cut off around it, and free of tags. */
  lemma LyricsFound(songName: string, artistName: string,
                    searchGenius: string -> Result<SearchResponse>,
                    fetchContainers: string -> Result<seq<string>>,
                    song: SongRef, containers: seq<string>)
    requires searchGenius(QueryTerm(songName, artistName)).Ok?
    requires SelectSong(searchGenius(QueryTerm(songName, artistName)).value) == Ok(song)
    requires fetchContainers(song.url) == Ok(containers)
    requires !AllWhite(Accumulated(containers))
    ensures FetchOutcome(songName, artistName, searchGenius, fetchContainers).Ok?
    ensures var lyrics := Accumulated(containers);
      var text := FetchOutcome(songName, artistName, searchGenius, fetchContainers).value;
      && text != [] && IsTrimmed(text) && NoTag(text)
      && IsInfixAt(text, lyrics, LeadingWhite(lyrics))
      && AllWhite(lyrics[..LeadingWhite(lyrics)])
      && AllWhite(lyrics[LeadingWhite(lyrics) + |text|..])
  {
    var lyrics := Accumulated(containers);
    assert FetchAttempt(songName, artistName, searchGenius, fetchContainers) == Ok(Trim(lyrics));
    TrimIsInfix(lyrics);
    LyricsTagFree(containers);
  }
}
