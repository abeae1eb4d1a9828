/** The container loop of `fetchLyrics` (loafy.js): each lyrics container's
    formatted text, followed by a blank line, is appended to `lyrics`. */
module Extract {
  import opened Markup

  const Separator: string := "\n\n"

  /** The text the loop has built after visiting `containers`, in order. */
  function Accumulated(containers: seq<string>): string {
    if containers == [] then []
    else
      var last := |containers| - 1;
      Accumulated(containers[..last]) + (FormatContainer(containers[last]) + Separator)
  }

  /** The `lyricsContainer.each(...)` loop over the containers' inner HTML,
      in document order. */
  method ExtractLyrics(containers: seq<string>) returns (lyrics: string)
    ensures lyrics == Accumulated(containers)
  {
    lyrics := "";
    var i := 0;
    while i < |containers|
      invariant 0 <= i <= |containers|
      invariant lyrics == Accumulated(containers[..i])
    {
      var html := containers[i];
      var formattedText := StripTags(ReplaceBreaks(html));
      lyrics := lyrics + (formattedText + Separator);
      assert containers[..i + 1][..i] == containers[..i];
      i := i + 1;
    }
    assert containers[..i] == containers;
  }

  /** Accumulation distributes over splitting the containers: the text of
      `xs + ys` is the text of `xs` followed by the text of `ys`. */
  lemma {:induction false} AccumulatedAppend(xs: seq<string>, ys: seq<string>)
    ensures Accumulated(xs + ys) == Accumulated(xs) + Accumulated(ys)
    decreases |ys|
  {
    if ys == [] {
      assert xs + ys == xs;
    } else {
      var zs := xs + ys;
      var last := |ys| - 1;
      var piece := FormatContainer(ys[last]) + Separator;
      assert zs[..|zs| - 1] == xs + ys[..last];
      assert zs[|zs| - 1] == ys[last];
      assert Accumulated(zs) == Accumulated(xs + ys[..last]) + piece;
      assert Accumulated(ys) == Accumulated(ys[..last]) + piece;
      AccumulatedAppend(xs, ys[..last]);
    }
  }

  /** One container contributes its formatted text and a blank line. */
  lemma AccumulatedSingle(html: string)
    ensures Accumulated([html]) == FormatContainer(html) + "\n\n"
  {
  }

  /** A non-empty accumulation ends with the separator. */
  lemma AccumulatedEndsWithSeparator(containers: seq<string>)
    requires containers != []
    ensures |Accumulated(containers)| >= 2
    ensures Accumulated(containers)[|Accumulated(containers)| - 2..] == Separator
  {
  }

  /** Newlines in the accumulation: those of each container's HTML, one per
      `<br>`, and two per container. */
  function ExpectedNewlines(containers: seq<string>): nat {
    if containers == [] then 0
    else
      var last := |containers| - 1;
      ExpectedNewlines(containers[..last]) +
        NewlineCount(containers[last]) + BreakCount(containers[last]) + 2
  }

  lemma {:induction false} NewlineCountAppend(a: string, b: string)
    ensures NewlineCount(a + b) == NewlineCount(a) + NewlineCount(b)
    decreases |a|
  {
    if a == [] {
      assert a + b == b;
    } else {
      assert (a + b)[0] == a[0] && (a + b)[1..] == a[1..] + b;
      NewlineCountAppend(a[1..], b);
    }
  }

  /** Every `<br>` of every container, and every separator, shows up as a
      newline of the accumulated text. */
  lemma {:induction false} AccumulatedNewlines(containers: seq<string>)
    ensures NewlineCount(Accumulated(containers)) == ExpectedNewlines(containers)
    decreases |containers|
  {
    if containers != [] {
      var last := |containers| - 1;
      var html := containers[last];
      AccumulatedNewlines(containers[..last]);
      FormatContainerNewlines(html);
      NewlineCountAppend(Accumulated(containers[..last]), FormatContainer(html) + Separator);
      NewlineCountAppend(FormatContainer(html), Separator);
    }
  }

  /** The accumulated text holds no tag: stripping removed every tag of each
      container, and the blank lines between containers keep a leftover `<`
      of one container from pairing with a `>` of the next. */
  lemma {:induction false} AccumulatedTagFree(containers: seq<string>)
    ensures TagFree(Accumulated(containers))
    decreases |containers|
  {
    if containers != [] {
      var last := |containers| - 1;
      var before := Accumulated(containers[..last]);
      var text := FormatContainer(containers[last]);
      AccumulatedTagFree(containers[..last]);
      FormatContainerNoTag(containers[last]);
      assert TagFree(Separator);
      TagFreeAppend(text, Separator);
      if before == [] {
        assert before + (text + Separator) == text + Separator;
      } else {
        AccumulatedEndsWithSeparator(containers[..last]);
        assert before[|before| - 1] == Separator[1];
        TagFreeAppend(before, text + Separator);
      }
    }
  }
}
