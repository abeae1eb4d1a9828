/** Choosing the song page from a search response (loafy.js, `fetchLyrics`,
    the `sections.find(...)?.hits[0]?.result` lookup and its null check). */
module Search {
  import opened Results

  /** The canonical result of one hit: the page to fetch next. */
  datatype SongRef = SongRef(url: string)

  /** One ranked hit; `result` is `None` when the hit carries no result
      object, which the source's optional chaining turns into `undefined`. */
  datatype Hit = Hit(result: Option<SongRef>)

  /** A grouped section of the search response (`type` is `"song"`,
      `"artist"`, ...). */
  datatype Section = Section(kind: string, hits: seq<Hit>)

  /** The part of the search endpoint's JSON body the program reads:
      `response.sections`. */
  datatype SearchResponse = SearchResponse(sections: seq<Section>)

  const SongKind: string := "song"
  const SongNotFound: string := "Song not found on Genius."

  /** `i` is the position of the first section whose kind is `kind`. */
  ghost predicate IsFirstOfKind(sections: seq<Section>, kind: string, i: int) {
    0 <= i < |sections| && sections[i].kind == kind &&
    forall j :: 0 <= j < i ==> sections[j].kind != kind
  }

  /** `Array.prototype.find` with the predicate `section.type === kind`,
      returning the position of the found section. */
  function FindSection(sections: seq<Section>, kind: string): (r: Option<nat>)
    ensures r.Some? ==> IsFirstOfKind(sections, kind, r.value)
    ensures r.None? ==> forall j :: 0 <= j < |sections| ==> sections[j].kind != kind
  {
    if sections == [] then None
    else if sections[0].kind == kind then Some(0)
    else match FindSection(sections[1..], kind)
      case None => None
      case Some(k) => Some(k + 1)
  }

  /** The first hit's result of the first `"song"` section, or the
      "Song not found on Genius." failure. */
  function SelectSong(response: SearchResponse): (r: Result<SongRef>)
    ensures r.Err? ==> r.message == SongNotFound
  {
    match FindSection(response.sections, SongKind)
    case None => Err(SongNotFound)
    case Some(i) =>
      var hits := response.sections[i].hits;
      if hits != [] && hits[0].result.Some? then Ok(hits[0].result.value)
      else Err(SongNotFound)
  }

  /** Selection succeeds with `song` exactly when the first `"song"` section
      exists, has at least one hit, and that first hit's result is `song`. */
  lemma SelectSongSpec(response: SearchResponse, song: SongRef)
    ensures SelectSong(response) == Ok(song) <==>
      exists i :: IsFirstOfKind(response.sections, SongKind, i) &&
        response.sections[i].hits != [] &&
        response.sections[i].hits[0].result == Some(song)
  {
  }

  /** Selection fails exactly when there is no `"song"` section, or the first
      one has no hits, or its first hit has no result. */
  lemma SelectSongFails(response: SearchResponse)
    ensures SelectSong(response).Err? <==>
      (forall j :: 0 <= j < |response.sections| ==> response.sections[j].kind != SongKind) ||
      exists i :: IsFirstOfKind(response.sections, SongKind, i) &&
        (response.sections[i].hits == [] || response.sections[i].hits[0].result.None?)
  {
  }

  /** Only the first `"song"` section is consulted: whatever follows it (a
      later `"song"` section with hits included) never changes the outcome. */
  lemma LaterSectionsIgnored(sections: seq<Section>, i: nat, rest: seq<Section>)
    requires IsFirstOfKind(sections, SongKind, i)
    ensures SelectSong(SearchResponse(sections[..i + 1] + rest)) == SelectSong(SearchResponse(sections))
  {
    var cut := sections[..i + 1] + rest;
    assert IsFirstOfKind(cut, SongKind, i) by {
      assert forall j :: 0 <= j <= i ==> cut[j] == sections[j];
    }
    FirstOfKindUnique(sections, SongKind, i);
    FirstOfKindUnique(cut, SongKind, i);
  }

  /** The first position of a kind is unique, so `FindSection` finds it. */
  lemma FirstOfKindUnique(sections: seq<Section>, kind: string, i: int)
    requires IsFirstOfKind(sections, kind, i)
    ensures FindSection(sections, kind) == Some(i)
  {
  }
}
