# loafy lyrics extraction, modelled in Dafny

loafy is a small command-line tool: it asks for a song name and an artist
name, searches Genius for the song, downloads the song's page, pulls the
lyrics out of the page's lyrics containers, writes them into a one-page HTML
document and opens that document in a browser. This project models the text
processing at the heart of `fetchLyrics` and `createLyricsHTML` in
`loafy.js`, and proves what it does:

- **Song selection** (`Search.dfy`): the first section of the search
  response whose `type` is `"song"`, then that section's first hit; a missing
  section, an empty hit list or a hit without a result fails with
  "Song not found on Genius.", and later `"song"` sections are never tried.
- **Container formatting** (`Markup.dfy`): `replace(/<br>/g, '\n')` followed
  by `replace(/<.*?>/g, '')`, both as left-to-right scanning functions. The
  tag pattern follows ECMAScript regular-expression semantics without the
  `s` flag: `.` does not match a line terminator (LF, CR, U+2028, U+2029), so
  a tag never spans one, and the lazy `.*?` stops at the first `>`.
- **Accumulation** (`Extract.dfy`): the `each` loop appends every
  container's text followed by `"\n\n"`; it is a method whose loop invariant
  ties the accumulator to the specification function `Accumulated`.
- **Trimming** (`Whitespace.dfy`): `String.prototype.trim` with the
  ECMAScript whitespace set written out.
- **The whole fetch** (`Fetch.dfy`): the `try` body as `FetchAttempt`, the
  `catch` that prefixes every failure with "Failed to fetch lyrics: ", and the
  method `FetchLyrics` that runs the steps in the source's order.
- **The HTML document** (`Page.dfy`): the `htmlContent` template, character
  for character.
- `Results.dfy` and `Strings.dfy` hold the shared `Option`/`Result` types and
  the "occurs at offset" predicate and the joining of lines; `Scenario.dfy` is one complete run (one
  song section, one hit, one container with a `<br>`, and a search endpoint
  that answers only the expected search term).

The two network requests are parameters of the model: `searchGenius` maps the
search term `"<song> <artist>"` to the parsed search response or to the
request's error message, and `fetchContainers` maps a page URL to the inner
HTML of the page's `[data-lyrics-container="true"]` elements, in document
order, or to the request's error message.

The comments in `loafy.js` describe the intent loosely; the model follows
what the code does:
- "Add double newlines for spacing" (loafy.js:48): the code appends
  `"\n\n"` after every container and trims afterwards, so the blank line
  comes after each container, not only between them; an empty container
  still adds a blank line inside the text;
- "Remove all other HTML tags" (loafy.js:47): the code removes only `<...>`
  spans that do not cross a line terminator, so a tag written over several
  lines is not removed;
- "Preserve line breaks and formatting" (loafy.js:42): only the exact
  spelling `<br>` becomes a newline; `<br/>` and `<BR>` are removed as
  ordinary tags;
- "Find the first song result" (loafy.js:24): selection also fails when the
  first hit of the first `"song"` section carries no result object
  (`?.result` is `undefined`).

## Model

| member | source | states |
|---|---|---|
| `Search.FindSection` | loafy.js:25-26 | returns the position of the first section whose type equals the wanted one; `None` exactly when no section has that type |
| `Search.SelectSong` | loafy.js:25-31 | every selection failure carries the message "Song not found on Genius." |
| `Search.SelectSongSpec` | loafy.js:25-31 | selection yields a song exactly when the first `"song"` section exists, has a hit, and that first hit's result is the song |
| `Search.SelectSongFails` | loafy.js:25-31 | selection fails exactly when no section is `"song"`, or the first `"song"` section has no hits or a first hit without result |
| `Search.LaterSectionsIgnored` | loafy.js:25-27 | replacing everything after the first `"song"` section (a later `"song"` section included) never changes the selection |
| `Markup.ReplaceBreaks` | loafy.js:46 | `replace(/<br>/g, '\n')` as a left-to-right scan; pinned down by `ReplaceBreaksPlain`, `ReplaceBreaksAtBreak` and `ReplaceBreaksKeepsOpen`, which place every newline where its `<br>` stood; `ReplaceBreaksLines` states this for any number of lines |
| `Markup.StripTags` | loafy.js:47 | `replace(/<.*?>/g, '')` as a left-to-right scan; characterised by `StripTagsPlain`, `StripTagsRemovesTag` and `StripTagsKeepsLoneOpen` (what survives), and by `StripTagsTagFree` and `StripTagsSubsequence` |
| `Markup.FormatContainer` | loafy.js:45-47 | the two chained replaces; characterised by `FormatContainerNewlines` and `FormatContainerNoTag` |
| `Extract.Accumulated` | loafy.js:40-49 | the accumulator after the loop; characterised by `AccumulatedAppend`, `AccumulatedSingle`, `AccumulatedNewlines` and `AccumulatedTagFree` |
| `Fetch.QueryTerm` | loafy.js:19 | the search term `${songName} ${artistName}` before URL-encoding |
| `Fetch.FetchAttempt` | loafy.js:16-55 | the `try` block; characterised by `FailuresWrapped`, `SongNotFoundReported`, `LyricsNotFoundReported` and `LyricsFound` |
| `Page.LyricsDocument` | loafy.js:63-92 | the `htmlContent` template; characterised by `DocumentShowsInputs` and `DocumentDeterminesLyrics` |
| `Markup.StripTagsPlain` | loafy.js:47 | text without `<` is kept unchanged, ahead of whatever the rest of the scan produces |
| `Markup.FindCloseAt` | loafy.js:47 | after a `<`, the lazy match ends at the first `>` when no `>` and no line terminator come before it |
| `Markup.StripTagsRemovesTag` | loafy.js:47 | a one-line `<...>` span is removed and the scan resumes right after its `>` |
| `Markup.StripTagsKeepsLoneOpen` | loafy.js:47 | a `<` with no `>` before the next line terminator is kept and the scan moves on by one character |
| `Markup.TextAroundTagKept` | loafy.js:47 | `a<i>b` becomes `ab`: the text on both sides of a tag survives |
| `Markup.ReplaceBreaksCounts` | loafy.js:46 | counting only: length drops by 3 and the newline count grows by 1 per exact `<br>` (where each newline lands is stated by `ReplaceBreaksLines`) |
| `Markup.ReplaceBreaksNoBreak` | loafy.js:46 | text without `<br>` is unchanged by the replacement |
| `Markup.ReplaceBreaksPlain` | loafy.js:46 | a prefix without `<` is copied through the replacement unchanged |
| `Markup.FindClose` | loafy.js:47 | the lazy `.*?>` after a `<`: the first `>` with no line terminator before it, and `None` exactly when every `>` is preceded by a line terminator |
| `Markup.TagFreeIsNoTag` | loafy.js:47 | "no match of `/<.*?>/` starts anywhere" is equivalent to "every `<` meets a line terminator before any `>`" |
| `Markup.StripTagsTagFree` | loafy.js:47 | after stripping, no `<` is followed by a `>` before the next line terminator |
| `Markup.StripTagsFixpoint` | loafy.js:47 | tag-free text passes through stripping unchanged |
| `Markup.StripTagsIdempotent` | loafy.js:47 | stripping twice equals stripping once |
| `Markup.StripTagsSubsequence` | loafy.js:47 | stripping only deletes characters; the survivors keep their original order |
| `Markup.StripTagsKeepsLineTerminators` | loafy.js:47 | stripping keeps every line terminator, in order |
| `Markup.TagFreeAppend` | loafy.js:48 | two tag-free texts joined across a line terminator stay tag-free |
| `Markup.FormatContainerNewlines` | loafy.js:45-47 | a container's text has the HTML's own newlines plus one per `<br>`, no more |
| `Markup.FormatContainerNoTag` | loafy.js:45-47 | a container's text holds no tag |
| `Markup.FormatBrokenLine` | loafy.js:45-47 | two pieces of plain text joined by `<br>` come out joined by one newline |
| `Markup.ReplaceBreaksAtBreak` | loafy.js:46 | an exact `<br>` at the head becomes one newline and the scan resumes right after it |
| `Markup.ReplaceBreaksKeepsOpen` | loafy.js:46 | a `<` that does not start an exact `<br>` is copied and the scan moves on by one character |
| `Markup.ReplaceBreaksLines` | loafy.js:46 | lines without `<` joined by `<br>` come out joined by newlines, in order, one newline where each `<br>` stood |
| `Markup.FormatLines` | loafy.js:45-47 | a container of any number of plain lines separated by `<br>` formats to the same lines separated by newlines |
| `Markup.ThreeLines` | loafy.js:46-47 | `a<br>b<br>c` becomes `a`, newline, `b`, newline, `c` |
| `Markup.ExactBreakIsNewline` | loafy.js:46-47 | `a<br>b` becomes `a`, newline, `b` |
| `Markup.SelfClosingBreakRemoved` | loafy.js:46-47 | `a<br/>b` becomes `ab`: no newline for other spellings |
| `Markup.UpperCaseBreakRemoved` | loafy.js:46-47 | `a<BR>b` becomes `ab`: the match is case-sensitive |
| `Whitespace.LeadingWhite` | loafy.js:55 | length of the longest all-whitespace prefix |
| `Whitespace.TrailingWhite` | loafy.js:55 | length of the longest all-whitespace suffix |
| `Whitespace.Trim` | loafy.js:51-55 | the result has no whitespace at either end and is empty exactly when the input is all whitespace |
| `Whitespace.TrimIsInfix` | loafy.js:55 | the result is a contiguous piece of the input with only whitespace before and after it, so interior blank lines are kept |
| `Whitespace.TrimTagFree` | loafy.js:55 | trimming a tag-free text leaves it tag-free |
| `Whitespace.TrimUnique` | loafy.js:55 | for any split into whitespace, a piece without whitespace at its ends, and whitespace, trimming returns that piece |
| `Whitespace.TrimIdempotent` | loafy.js:55 | trimming twice equals trimming once |
| `Extract.ExtractLyrics` | loafy.js:40-49 | the loop's accumulator ends as the in-order concatenation of every container's text, each followed by `"\n\n"` |
| `Extract.AccumulatedAppend` | loafy.js:43-49 | the accumulation of two runs of containers is the concatenation of their accumulations |
| `Extract.AccumulatedSingle` | loafy.js:48 | one container contributes its formatted text followed by a blank line |
| `Extract.AccumulatedEndsWithSeparator` | loafy.js:48 | after at least one container the accumulator ends with `"\n\n"` |
| `Extract.AccumulatedNewlines` | loafy.js:43-49 | the accumulator's newlines are each container's own newlines, one per `<br>`, and two per container |
| `Extract.AccumulatedTagFree` | loafy.js:43-49 | the accumulator holds no tag, even across container boundaries |
| `Fetch.FetchOutcome` | loafy.js:15-58 | a failure message always starts with "Failed to fetch lyrics: "; a success is non-empty with no whitespace at either end |
| `Fetch.FetchLyrics` | loafy.js:15-58 | the step-by-step run agrees with `FetchOutcome`; its lyrics are non-empty, trimmed and tag-free; its failures carry the prefix |
| `Fetch.LyricsTagFree` | loafy.js:51-55 | the trimmed accumulator holds no tag |
| `Fetch.FailuresWrapped` | loafy.js:56-57 | a failure surfaces as exactly "Failed to fetch lyrics: " followed by the underlying message; a success passes through |
| `Fetch.SearchFailureReported` | loafy.js:21-57 | a failed search request surfaces with its own message under the prefix |
| `Fetch.SongNotFoundReported` | loafy.js:25-57 | without a selected song the run fails with "Failed to fetch lyrics: Song not found on Genius." and never consults the page fetcher |
| `Fetch.PageFailureReported` | loafy.js:34-57 | a failed page request surfaces with its own message under the prefix |
| `Fetch.LyricsNotFoundReported` | loafy.js:40-57 | with the containers in hand, the run fails with "Failed to fetch lyrics: Lyrics not found on the page." exactly when the accumulator is all whitespace, and always when there are no containers |
| `Fetch.LyricsFound` | loafy.js:40-57 | otherwise the run returns the accumulator trimmed: non-empty, no whitespace at either end, tag-free, a contiguous piece of the accumulator with only whitespace cut off around it |
| `Page.DocumentShowsInputs` | loafy.js:63-92 | the document contains `<title>Lyrics: S - A</title>`, `<h1>S - A</h1>` and `<div id="lyrics">L</div>` with S, A and L verbatim |
| `Page.DocumentDeterminesLyrics` | loafy.js:63-92 | for a given song and artist, different lyrics give different documents |
| `Page.HeadingIsAmbiguous` | loafy.js:69-88 | names are inserted undelimited: song "x - y" by "z" and song "x" by "y - z" give the same document |
| `Scenario.YesterdayContainer` | loafy.js:45-47 | `Yesterday<br>All my troubles seemed so far away` formats to the two lines joined by one newline |
| `Scenario.YesterdayRun` | loafy.js:15-58 | with an endpoint that answers only the search term `Yesterday The Beatles`, one `"song"` section with one hit and one such container make the run return those two lines |
| `Scenario.OtherQueryFails` | loafy.js:17-57 | searching for `Yesterday Beatles` instead sends another search term, whose failure the run reports under the prefix |
| `Scenario.YesterdayHeading` | loafy.js:88 | that run's document contains `<h1>Yesterday - The Beatles</h1>` |
| `Scenario.YesterdayBody` | loafy.js:89 | that run's document contains the lyrics block with the two lines |

## Left out

- The HTTP requests (loafy.js:21, loafy.js:35) are parameters of the model; `encodeURIComponent` and the search URL (loafy.js:18-20) are not modelled, only the raw search term `"<song> <artist>"`.
- A search body without `response.sections`, or a first `"song"` section without `hits`, makes the source throw a `TypeError`; the model takes a well-formed response, and such failures belong to the search parameter's error messages.
- cheerio's page parsing, the `[data-lyrics-container="true"]` selector and `.html()` serialisation (loafy.js:36, loafy.js:39, loafy.js:44) are a foreign library; the model takes the containers' inner HTML as given.
- Writing `lyrics.html` beside the program (loafy.js:94-96) and opening it with `opn` (loafy.js:112) are filesystem and OS side effects; only the document text is modelled.
- The readline prompts and `main` (loafy.js:9-12, loafy.js:100-122) are interactive I/O and callback control flow. The `catch` in `main` cannot see a rejection from the inner callback, so the way a failure reaches the user is not modelled.
- `Whitespace.IsTrimmable` fixes the whitespace set of `trim`: TAB, VT, FF, U+FEFF, the `Zs` category as of Unicode 15 and the four line terminators; a later Unicode version could add `Zs` characters.
- JavaScript strings are UTF-16 code units while a Dafny `char` is a Unicode scalar value; none of the characters the model inspects are surrogates, so the two agree on every result.
