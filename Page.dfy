/** The document built by `createLyricsHTML` (loafy.js): a fixed template
    with the song name, the artist name and the lyrics spliced in, without
    any escaping. */
module Page {
  import opened Strings

  /** Everything before the `<title>` element. */
  const DocumentOpen: string :=
    "\n"
    + "    <!DOCTYPE html>\n"
    + "    <html lang=\"en\">\n"
    + "    <head>\n"
    + "      <meta charset=\"UTF-8\" />\n"
    + "      <meta name=\"viewport\" content=\"width=device-width, initial-scale=1.0\" />\n"
    + "      "

  /** From the end of `<title>` to the start of `<h1>`: the dark, centred
      style with a whitespace-preserving `#lyrics` block. */
  const StyleBlock: string :=
    "\n"
    + "      <style>\n"
    + "        body {\n"
    + "          font-family: Arial, sans-serif;\n"
    + "          background-color: #1e1e1e;\n"
    + "          color: #ffffff;\n"
    + "          margin: 0;\n"
    + "          padding: 20px;\n"
    + "          display: flex;\n"
    + "          flex-direction: column;\n"
    + "          align-items: center;\n"
    + "        }\n"
    + "        #lyrics {\n"
    + "          white-space: pre-wrap;\n"
    + "          text-align: center;\n"
    + "        }\n"
    + "      </style>\n"
    + "    </head>\n"
    + "    <body>\n"
    + "      "

  const BodyIndent: string := "\n      "

  /** Everything after the lyrics `<div>`. */
  const DocumentClose: string :=
    "\n"
    + "    </body>\n"
    + "    </html>\n"
    + "  "

  function TitleElement(songName: string, artistName: string): string {
    "<title>Lyrics: " + songName + " - " + artistName + "</title>"
  }

  function HeadingElement(songName: string, artistName: string): string {
    "<h1>" + songName + " - " + artistName + "</h1>"
  }

  function LyricsElement(lyrics: string): string {
    "<div id=\"lyrics\">" + lyrics + "</div>"
  }

  /** `htmlContent`: a function of its three inputs alone. */
  function LyricsDocument(lyrics: string, songName: string, artistName: string): string {
    DocumentOpen + TitleElement(songName, artistName) + StyleBlock
      + HeadingElement(songName, artistName) + BodyIndent
      + LyricsElement(lyrics) + DocumentClose
  }

  /** The document shows `<title>Lyrics: S - A</title>`, `<h1>S - A</h1>`
      and `<div id="lyrics">L</div>` with S, A and L inserted verbatim. */
  lemma DocumentShowsInputs(lyrics: string, songName: string, artistName: string)
    ensures Contains(LyricsDocument(lyrics, songName, artistName),
                     "<title>Lyrics: " + songName + " - " + artistName + "</title>")
    ensures Contains(LyricsDocument(lyrics, songName, artistName),
                     "<h1>" + songName + " - " + artistName + "</h1>")
    ensures Contains(LyricsDocument(lyrics, songName, artistName),
                     "<div id=\"lyrics\">" + lyrics + "</div>")
  {
    var title := TitleElement(songName, artistName);
    var heading := HeadingElement(songName, artistName);
    var body := LyricsElement(lyrics);
    var upToTitle := DocumentOpen + title;
    var upToHeading := upToTitle + StyleBlock + heading;
    var upToBody := upToHeading + BodyIndent + body;
    InfixAtEnd(DocumentOpen, title);
    InfixAppend(title, upToTitle, |DocumentOpen|, StyleBlock);
    InfixAppend(title, upToTitle + StyleBlock, |DocumentOpen|, heading);
    InfixAppend(title, upToHeading, |DocumentOpen|, BodyIndent);
    InfixAppend(title, upToHeading + BodyIndent, |DocumentOpen|, body);
    InfixAppend(title, upToBody, |DocumentOpen|, DocumentClose);
    InfixAtEnd(upToTitle + StyleBlock, heading);
    InfixAppend(heading, upToHeading, |upToTitle + StyleBlock|, BodyIndent);
    InfixAppend(heading, upToHeading + BodyIndent, |upToTitle + StyleBlock|, body);
    InfixAppend(heading, upToBody, |upToTitle + StyleBlock|, DocumentClose);
    InfixAtEnd(upToHeading + BodyIndent, body);
    InfixAppend(body, upToBody, |upToHeading + BodyIndent|, DocumentClose);
  }

  /** The lyrics sit at a fixed distance from the end of the document, so
      for a given song and artist the document determines the lyrics. */
  lemma DocumentDeterminesLyrics(lyrics: string, other: string, songName: string, artistName: string)
    requires LyricsDocument(lyrics, songName, artistName) == LyricsDocument(other, songName, artistName)
    ensures lyrics == other
  {
    var front := DocumentOpen + TitleElement(songName, artistName) + StyleBlock
      + HeadingElement(songName, artistName) + BodyIndent + "<div id=\"lyrics\">";
    var back := "</div>" + DocumentClose;
    assert LyricsDocument(lyrics, songName, artistName) == front + lyrics + back;
    assert LyricsDocument(other, songName, artistName) == front + other + back;
    assert |lyrics| == |other|;
    assert lyrics == (front + lyrics + back)[|front|..|front| + |lyrics|];
    assert other == (front + other + back)[|front|..|front| + |other|];
  }

  /** Because the names are inserted unescaped and undelimited, the
      document does not determine them: a song "x - y" by "z" and a song
      "x" by "y - z" give the same document. */
  lemma HeadingIsAmbiguous(lyrics: string)
    ensures LyricsDocument(lyrics, "x - y", "z") == LyricsDocument(lyrics, "x", "y - z")
  {
    assert TitleElement("x - y", "z") == TitleElement("x", "y - z");
    assert HeadingElement("x - y", "z") == HeadingElement("x", "y - z");
  }
}
