/** Turning one lyrics container's inner HTML into text (loafy.js,
    `fetchLyrics`): `html.replace(/<br>/g, '\n').replace(/<.*?>/g, '')`. */
module Markup {
  import opened Results
  import opened Strings

  /** ECMAScript LineTerminator: the characters that `.` does not match in a
      regular expression without the `s` flag. */
  predicate IsLineTerminator(c: char) {
    c == '\n' || c == '\r' || c == '\U{2028}' || c == '\U{2029}'
  }

  const BreakTag: string := "<br>"

  /** The literal `<br>` starts at the head of `s`. */
  predicate StartsWithBreak(s: string) {
    |s| >= 4 && s[..4] == BreakTag
  }

  /** `s.replace(/<br>/g, '\n')`: a left-to-right scan that turns each
      exact, case-sensitive `<br>` into one newline. */
  function ReplaceBreaks(s: string): string
    decreases |s|
  {
    if s == [] then []
    else if StartsWithBreak(s) then "\n" + ReplaceBreaks(s[4..])
    else [s[0]] + ReplaceBreaks(s[1..])
  }

  /** Number of positions of `s` at which `<br>` starts. */
  function BreakCount(s: string): nat {
    if s == [] then 0 else (if StartsWithBreak(s) then 1 else 0) + BreakCount(s[1..])
  }

  /** Number of `'\n'` characters in `s`. */
  function NewlineCount(s: string): nat {
    if s == [] then 0 else (if s[0] == '\n' then 1 else 0) + NewlineCount(s[1..])
  }

  /** `<br>` cannot overlap itself, so the three positions after an
      occurrence start none; and an occurrence holds no newline. */
  lemma BreakSkip(s: string)
    requires StartsWithBreak(s)
    ensures BreakCount(s) == 1 + BreakCount(s[4..])
    ensures NewlineCount(s) == NewlineCount(s[4..])
  {
    assert s[0] == '<' && s[1] == 'b' && s[2] == 'r' && s[3] == '>';
    assert s[1..][0] == 'b' && s[1..][1..] == s[2..];
    assert s[2..][0] == 'r' && s[2..][1..] == s[3..];
    assert s[3..][0] == '>' && s[3..][1..] == s[4..];
    assert BreakCount(s[1..]) == BreakCount(s[2..]) == BreakCount(s[3..]) == BreakCount(s[4..]);
    assert NewlineCount(s[1..]) == NewlineCount(s[2..]) == NewlineCount(s[3..]) == NewlineCount(s[4..]);
  }

  /** Every occurrence of `<br>` becomes exactly one newline: the text
      shrinks by three characters per occurrence and gains one newline per
      occurrence. */
  lemma {:induction false} ReplaceBreaksCounts(s: string)
    ensures |ReplaceBreaks(s)| == |s| - 3 * BreakCount(s)
    ensures NewlineCount(ReplaceBreaks(s)) == NewlineCount(s) + BreakCount(s)
    decreases |s|
  {
    if s == [] {
    } else if StartsWithBreak(s) {
      BreakSkip(s);
      ReplaceBreaksCounts(s[4..]);
    } else {
      ReplaceBreaksCounts(s[1..]);
    }
  }

  /** Text without `<br>` is left as it is. */
  lemma {:induction false} ReplaceBreaksNoBreak(s: string)
    requires BreakCount(s) == 0
    ensures ReplaceBreaks(s) == s
    decreases |s|
  {
    if s != [] {
      ReplaceBreaksNoBreak(s[1..]);
    }
  }

  /** The lazy `.*?>` part of `/<.*?>/`, tried just after a `<`: the
      position of the first `>` in `s`, provided no line terminator comes
      before it; `None` when there is no such `>`. */
  function FindClose(s: string): (r: Option<nat>)
    ensures r.Some? ==> r.value < |s| && s[r.value] == '>'
    ensures r.Some? ==> forall k :: 0 <= k < r.value ==> s[k] != '>' && !IsLineTerminator(s[k])
    ensures r.None? ==> forall k :: 0 <= k < |s| && s[k] == '>' ==>
      exists j :: 0 <= j < k && IsLineTerminator(s[j])
  {
    if s == [] then None
    else if s[0] == '>' then Some(0)
    else if IsLineTerminator(s[0]) then None
    else match FindClose(s[1..])
      case None =>
        assert forall k :: 1 <= k < |s| && s[k] == '>' ==> exists j :: 0 <= j < k && IsLineTerminator(s[j]) by {
          forall k | 1 <= k < |s| && s[k] == '>'
            ensures exists j :: 0 <= j < k && IsLineTerminator(s[j])
          {
            assert s[1..][k - 1] == '>';
            var j :| 0 <= j < k - 1 && IsLineTerminator(s[1..][j]);
            assert IsLineTerminator(s[j + 1]);
          }
        }
        None
      case Some(k) => Some(k + 1)
  }

  /** `s.replace(/<.*?>/g, '')`: a left-to-right scan that removes each
      shortest `<...>` span not crossing a line terminator; a `<` with no
      such span is kept and the scan moves on by one character. */
  function StripTags(s: string): string
    decreases |s|
  {
    if s == [] then []
    else
      var close := if s[0] == '<' then FindClose(s[1..]) else None;
      if close.Some? then StripTags(s[close.value + 2..])
      else [s[0]] + StripTags(s[1..])
  }

  /** The text of one lyrics container, as built by the source's two chained
      replaces. */
  function FormatContainer(html: string): string {
    StripTags(ReplaceBreaks(html))
  }

  /** No match of `/<.*?>/` starts anywhere in `s`. */
  predicate TagFree(s: string) {
    forall i :: 0 <= i < |s| && s[i] == '<' ==> FindClose(s[i + 1..]).None?
  }

  /** Every `<` of `s` is followed by a line terminator before any `>`. */
  ghost predicate NoTag(s: string) {
    forall i, j :: 0 <= i < j < |s| && s[i] == '<' && s[j] == '>' ==>
      exists k :: i < k < j && IsLineTerminator(s[k])
  }

  /** The scanner's notion and the plain statement agree. */
  lemma TagFreeIsNoTag(s: string)
    ensures TagFree(s) <==> NoTag(s)
  {
  }

  /** Prepending one character keeps a tag-free text tag-free unless it is a
      `<` that opens a match. */
  lemma TagFreeCons(c: char, s: string)
    requires TagFree(s)
    requires c == '<' ==> FindClose(s).None?
    ensures TagFree([c] + s)
  {
    var t := [c] + s;
    forall i | 0 <= i < |t| && t[i] == '<'
      ensures FindClose(t[i + 1..]).None?
    {
      if i == 0 {
        assert t[1..] == s;
      } else {
        assert t[i + 1..] == s[i..];
        assert s[i - 1] == '<';
      }
    }
  }

  /** A `<` that found no closing `>` before a line terminator still finds
      none once the rest of the text is stripped: the characters up to that
      line terminator are all kept. */
  lemma {:induction false} StripKeepsOpen(s: string)
    requires FindClose(s).None?
    ensures FindClose(StripTags(s)).None?
    decreases |s|
  {
    if s != [] && !IsLineTerminator(s[0]) {
      assert s[0] != '>';
      assert FindClose(s[1..]).None?;
      if s[0] == '<' {
        assert StripTags(s) == [s[0]] + StripTags(s[1..]);
      }
      StripKeepsOpen(s[1..]);
      var r := StripTags(s);
      assert r[1..] == StripTags(s[1..]);
    }
  }

  /** Stripping leaves no tag behind. */
  lemma {:induction false} StripTagsTagFree(s: string)
    ensures TagFree(StripTags(s))
    decreases |s|
  {
    if s != [] {
      var close := if s[0] == '<' then FindClose(s[1..]) else None;
      if close.Some? {
        StripTagsTagFree(s[close.value + 2..]);
      } else {
        StripTagsTagFree(s[1..]);
        if s[0] == '<' {
          StripKeepsOpen(s[1..]);
        }
        TagFreeCons(s[0], StripTags(s[1..]));
      }
    }
  }

  /** Text that is already tag-free passes through stripping unchanged. */
  lemma {:induction false} StripTagsFixpoint(s: string)
    requires TagFree(s)
    ensures StripTags(s) == s
    decreases |s|
  {
    if s != [] {
      assert s[0] == '<' ==> FindClose(s[1..]).None?;
      assert TagFree(s[1..]) by {
        forall i | 0 <= i < |s[1..]| && s[1..][i] == '<'
          ensures FindClose(s[1..][i + 1..]).None?
        {
          assert s[1..][i + 1..] == s[i + 2..];
        }
      }
      StripTagsFixpoint(s[1..]);
    }
  }

  /** Text without `<` is kept, character for character, ahead of whatever
      the rest of the scan produces. */
  lemma {:induction false} StripTagsPlain(a: string, t: string)
    requires '<' !in a
    ensures StripTags(a + t) == a + StripTags(t)
    decreases |a|
  {
    if a == [] {
      assert a + t == t;
    } else {
      assert (a + t)[0] == a[0] && (a + t)[1..] == a[1..] + t;
      assert a[0] != '<';
      StripTagsPlain(a[1..], t);
    }
  }

  /** The lazy match after a `<` ends at the first `>`, provided no line
      terminator and no `>` come before it. */
  lemma FindCloseAt(m: string, rest: string)
    requires '>' !in m && forall k :: 0 <= k < |m| ==> !IsLineTerminator(m[k])
    ensures FindClose(m + ">" + rest) == Some(|m|)
  {
    var s := m + ">" + rest;
    assert s[|m|] == '>';
    assert forall k :: 0 <= k < |m| ==> s[k] == m[k];
  }

  /** A whole `<...>` span on one line is removed, and nothing else: the scan
      resumes right after its `>`. */
  lemma StripTagsRemovesTag(m: string, rest: string)
    requires '>' !in m && forall k :: 0 <= k < |m| ==> !IsLineTerminator(m[k])
    ensures StripTags("<" + m + ">" + rest) == StripTags(rest)
  {
    var s := "<" + m + ">" + rest;
    assert s[0] == '<';
    assert s[1..] == m + ">" + rest;
    FindCloseAt(m, rest);
    assert s[|m| + 2..] == rest;
  }

  /** A `<` with no `>` before the next line terminator is kept, and the scan
      moves on by one character. */
  lemma StripTagsKeepsLoneOpen(t: string)
    requires FindClose(t).None?
    ensures StripTags("<" + t) == "<" + StripTags(t)
  {
    assert ("<" + t)[0] == '<' && ("<" + t)[1..] == t;
  }

  /** With the three cases above, this example shows the text on both sides
      of a tag surviving. */
  lemma TextAroundTagKept()
    ensures StripTags("a<i>b") == "ab"
  {
    assert "a<i>b" == "a" + ("<" + "i" + ">" + "b");
    StripTagsPlain("a", "<" + "i" + ">" + "b");
    StripTagsRemovesTag("i", "b");
    StripTagsPlain("b", []);
    assert "b" + [] == "b";
  }

  /** Stripping twice is the same as stripping once. */
  lemma StripTagsIdempotent(s: string)
    ensures StripTags(StripTags(s)) == StripTags(s)
  {
    StripTagsTagFree(s);
    StripTagsFixpoint(StripTags(s));
  }

  /** `a` is obtained from `b` by deleting characters. */
  ghost predicate IsSubsequence(a: string, b: string)
    decreases |b|
  {
    a == [] || (b != [] && ((a[0] == b[0] && IsSubsequence(a[1..], b[1..])) || IsSubsequence(a, b[1..])))
  }

  lemma {:induction false} SubsequenceExtend(a: string, prefix: string, b: string)
    requires IsSubsequence(a, b)
    ensures IsSubsequence(a, prefix + b)
    decreases |prefix|
  {
    if prefix == [] {
      assert prefix + b == b;
    } else if a != [] {
      SubsequenceExtend(a, prefix[1..], b);
      var t := prefix + b;
      assert t[1..] == prefix[1..] + b;
      assert IsSubsequence(a, t[1..]);
    }
  }

  /** Stripping only deletes characters: what survives keeps its order. */
  lemma {:induction false} StripTagsSubsequence(s: string)
    ensures IsSubsequence(StripTags(s), s)
    decreases |s|
  {
    if s != [] {
      var close := if s[0] == '<' then FindClose(s[1..]) else None;
      if close.Some? {
        var n := close.value + 2;
        StripTagsSubsequence(s[n..]);
        SubsequenceExtend(StripTags(s[n..]), s[..n], s[n..]);
        assert s[..n] + s[n..] == s;
      } else {
        StripTagsSubsequence(s[1..]);
        var r := StripTags(s);
        assert r[0] == s[0] && r[1..] == StripTags(s[1..]);
      }
    }
  }

  /** The line terminators of `s`, in order. */
  function LineTerminators(s: string): string {
    if s == [] then []
    else if IsLineTerminator(s[0]) then [s[0]] + LineTerminators(s[1..])
    else LineTerminators(s[1..])
  }

  lemma {:induction false} LineTerminatorsAppend(a: string, b: string)
    ensures LineTerminators(a + b) == LineTerminators(a) + LineTerminators(b)
    decreases |a|
  {
    if a == [] {
      assert a + b == b;
    } else {
      assert (a + b)[0] == a[0] && (a + b)[1..] == a[1..] + b;
      LineTerminatorsAppend(a[1..], b);
    }
  }

  /** A span matched after a `<` holds no line terminator. */
  lemma {:induction false} MatchedSpanHasNoTerminator(s: string)
    requires FindClose(s).Some?
    ensures LineTerminators(s[..FindClose(s).value + 1]) == []
    decreases |s|
  {
    if s[0] != '>' {
      MatchedSpanHasNoTerminator(s[1..]);
      assert s[..FindClose(s).value + 1][1..] == s[1..][..FindClose(s[1..]).value + 1];
    }
  }

  /** A removed `<...>` span holds no line terminator. */
  lemma RemovedSpanHasNoTerminator(s: string)
    requires s != [] && s[0] == '<' && FindClose(s[1..]).Some?
    ensures LineTerminators(s) == LineTerminators(s[FindClose(s[1..]).value + 2..])
  {
    var n := FindClose(s[1..]).value + 2;
    MatchedSpanHasNoTerminator(s[1..]);
    assert s[..n] == [s[0]] + s[1..][..n - 1];
    assert LineTerminators(s[..n]) == [];
    LineTerminatorsAppend(s[..n], s[n..]);
    assert s[..n] + s[n..] == s;
  }

  /** Stripping never removes a line terminator, nor reorders them. */
  lemma {:induction false} StripTagsKeepsLineTerminators(s: string)
    ensures LineTerminators(StripTags(s)) == LineTerminators(s)
    decreases |s|
  {
    if s != [] {
      var close := if s[0] == '<' then FindClose(s[1..]) else None;
      if close.Some? {
        StripTagsKeepsLineTerminators(s[close.value + 2..]);
        RemovedSpanHasNoTerminator(s);
      } else {
        StripTagsKeepsLineTerminators(s[1..]);
        assert StripTags(s)[1..] == StripTags(s[1..]);
      }
    }
  }

  lemma {:induction false} NewlinesAreLineTerminators(s: string)
    ensures NewlineCount(LineTerminators(s)) == NewlineCount(s)
    decreases |s|
  {
    if s != [] {
      NewlinesAreLineTerminators(s[1..]);
    }
  }

  /** A container's text has one newline for each newline already in its
      HTML plus one for each `<br>`; `<br/>`, `<BR>` and the like add none. */
  lemma FormatContainerNewlines(html: string)
    ensures NewlineCount(FormatContainer(html)) == NewlineCount(html) + BreakCount(html)
  {
    ReplaceBreaksCounts(html);
    StripTagsKeepsLineTerminators(ReplaceBreaks(html));
    NewlinesAreLineTerminators(ReplaceBreaks(html));
    NewlinesAreLineTerminators(FormatContainer(html));
  }

  /** A container's text holds no tag. */
  lemma FormatContainerNoTag(html: string)
    ensures TagFree(FormatContainer(html)) && NoTag(FormatContainer(html))
  {
    StripTagsTagFree(ReplaceBreaks(html));
    TagFreeIsNoTag(FormatContainer(html));
  }

  /** A `<` whose `.*?>` found no match still finds none when more text
      follows, provided a line terminator stops the scan first: one already
      inside `s`, or one at the head of what follows. */
  lemma {:induction false} FindCloseAppend(s: string, t: string)
    requires FindClose(s).None?
    requires (exists k :: 0 <= k < |s| && IsLineTerminator(s[k])) || (t != [] && IsLineTerminator(t[0]))
    ensures FindClose(s + t).None?
    decreases |s|
  {
    if s == [] {
      assert s + t == t;
    } else if !IsLineTerminator(s[0]) {
      assert (s + t)[0] == s[0] && (s + t)[1..] == s[1..] + t;
      if exists k :: 0 <= k < |s| && IsLineTerminator(s[k]) {
        var k :| 0 <= k < |s| && IsLineTerminator(s[k]);
        assert IsLineTerminator(s[1..][k - 1]);
      }
      FindCloseAppend(s[1..], t);
    } else {
      assert (s + t)[0] == s[0];
    }
  }

  /** A `<` of the left text finds no `>` in the joined text. */
  lemma TagFreeAppendLeft(a: string, b: string, i: nat)
    requires TagFree(a) && i < |a| && a[i] == '<'
    requires (a != [] && IsLineTerminator(a[|a| - 1])) || (b != [] && IsLineTerminator(b[0]))
    ensures FindClose((a + b)[i + 1..]).None?
  {
    var rest := a[i + 1..];
    assert (a + b)[i + 1..] == rest + b;
    if IsLineTerminator(a[|a| - 1]) {
      assert i < |a| - 1;
      assert IsLineTerminator(rest[|a| - i - 2]);
    }
    FindCloseAppend(rest, b);
  }

  /** A `<` of the right text finds no `>` in the joined text. */
  lemma TagFreeAppendRight(a: string, b: string, i: nat)
    requires TagFree(b) && |a| <= i < |a| + |b| && (a + b)[i] == '<'
    ensures FindClose((a + b)[i + 1..]).None?
  {
    assert b[i - |a|] == '<';
    assert (a + b)[i + 1..] == b[i - |a| + 1..];
  }

  /** Joining two tag-free texts creates no tag when a line terminator
      separates them. */
  lemma TagFreeAppend(a: string, b: string)
    requires TagFree(a) && TagFree(b)
    requires (a != [] && IsLineTerminator(a[|a| - 1])) || (b != [] && IsLineTerminator(b[0]))
    ensures TagFree(a + b)
  {
    forall i | 0 <= i < |a + b| && (a + b)[i] == '<'
      ensures FindClose((a + b)[i + 1..]).None?
    {
      if i < |a| {
        TagFreeAppendLeft(a, b, i);
      } else {
        TagFreeAppendRight(a, b, i);
      }
    }
  }

  /** Cutting a scan short never makes it find a `>`. */
  lemma FindClosePrefix(s: string, n: nat)
    requires n <= |s| && FindClose(s).None?
    ensures FindClose(s[..n]).None?
  {
  }

  /** Any contiguous piece of a tag-free text is tag-free. */
  lemma TagFreeInfix(part: string, s: string, at: int)
    requires TagFree(s) && IsInfixAt(part, s, at)
    ensures TagFree(part)
  {
    forall i | 0 <= i < |part| && part[i] == '<'
      ensures FindClose(part[i + 1..]).None?
    {
      assert s[at + i] == '<';
      assert part[i + 1..] == s[at + i + 1..][..|part| - i - 1];
      FindClosePrefix(s[at + i + 1..], |part| - i - 1);
    }
  }

  /** Text without `<` is copied through by the `<br>` replacement. */
  lemma {:induction false} ReplaceBreaksPlain(a: string, t: string)
    requires '<' !in a
    ensures ReplaceBreaks(a + t) == a + ReplaceBreaks(t)
    decreases |a|
  {
    if a == [] {
      assert a + t == t;
    } else {
      assert (a + t)[0] == a[0] && (a + t)[1..] == a[1..] + t;
      assert a[0] != '<';
      ReplaceBreaksPlain(a[1..], t);
    }
  }

  /** An exact `<br>` at the head becomes one newline, and the scan resumes
      right after it. */
  lemma ReplaceBreaksAtBreak(t: string)
    ensures ReplaceBreaks(BreakTag + t) == "\n" + ReplaceBreaks(t)
  {
    assert (BreakTag + t)[..4] == BreakTag && (BreakTag + t)[4..] == t;
  }

  /** A `<` that does not start an exact `<br>` is copied, and the scan moves
      on by one character. */
  lemma ReplaceBreaksKeepsOpen(t: string)
    requires !StartsWithBreak("<" + t)
    ensures ReplaceBreaks("<" + t) == "<" + ReplaceBreaks(t)
  {
    assert ("<" + t)[0] == '<' && ("<" + t)[1..] == t;
  }

  /** Lines without `<` joined by `<br>` come out joined by newlines: each
      newline lands exactly where its `<br>` stood. */
  lemma {:induction false} ReplaceBreaksLines(lines: seq<string>)
    requires forall i :: 0 <= i < |lines| ==> '<' !in lines[i]
    ensures ReplaceBreaks(Join(lines, BreakTag)) == Join(lines, "\n")
    decreases |lines|
  {
    if |lines| == 1 {
      ReplaceBreaksPlain(lines[0], []);
      assert lines[0] + [] == lines[0];
    } else if |lines| > 1 {
      var rest := Join(lines[1..], BreakTag);
      assert Join(lines, BreakTag) == lines[0] + (BreakTag + rest);
      ReplaceBreaksPlain(lines[0], BreakTag + rest);
      ReplaceBreaksAtBreak(rest);
      ReplaceBreaksLines(lines[1..]);
      assert Join(lines, "\n") == lines[0] + ("\n" + Join(lines[1..], "\n"));
    }
  }

  /** Joining lines without `<` by a separator without `<` gives no `<`. */
  lemma {:induction false} JoinWithoutOpen(lines: seq<string>, sep: string)
    requires '<' !in sep
    requires forall i :: 0 <= i < |lines| ==> '<' !in lines[i]
    ensures '<' !in Join(lines, sep)
    decreases |lines|
  {
    if |lines| > 1 {
      JoinWithoutOpen(lines[1..], sep);
    }
  }

  /** A container of plain lines separated by `<br>` formats to those lines
      separated by newlines. */
  lemma FormatLines(lines: seq<string>)
    requires forall i :: 0 <= i < |lines| ==> '<' !in lines[i]
    ensures FormatContainer(Join(lines, BreakTag)) == Join(lines, "\n")
  {
    ReplaceBreaksLines(lines);
    JoinWithoutOpen(lines, "\n");
    StripTagsFixpoint(Join(lines, "\n"));
  }

  /** Three lines keep their order, one newline between each two. */
  lemma ThreeLines()
    ensures FormatContainer("a<br>b<br>c") == "a\nb\nc"
  {
    var lines := ["a", "b", "c"];
    assert Join(lines[2..], BreakTag) == "c";
    assert Join(lines[1..], BreakTag) == "b<br>c";
    assert Join(lines, BreakTag) == "a<br>b<br>c";
    assert Join(lines[2..], "\n") == "c";
    assert Join(lines[1..], "\n") == "b\nc";
    assert Join(lines, "\n") == "a\nb\nc";
    FormatLines(lines);
  }

  /** Two pieces of plain text joined by `<br>` come out joined by one
      newline. */
  lemma FormatBrokenLine(a: string, b: string)
    requires '<' !in a && '<' !in b
    ensures FormatContainer(a + "<br>" + b) == a + "\n" + b
  {
    var t := "<br>" + b;
    assert a + "<br>" + b == a + t;
    ReplaceBreaksPlain(a, t);
    assert t[..4] == BreakTag && t[4..] == b;
    ReplaceBreaksPlain(b, []);
    assert b + [] == b;
    var r := a + "\n" + b;
    assert ReplaceBreaks(a + t) == r;
    assert '<' !in r;
    StripTagsFixpoint(r);
  }

  /** Only the exact `<br>` spelling yields a newline. */
  lemma ExactBreakIsNewline()
    ensures FormatContainer("a<br>b") == "a\nb"
  {
  }

  /** A self-closing `<br/>` is removed like any other tag. */
  lemma SelfClosingBreakRemoved()
    ensures FormatContainer("a<br/>b") == "ab"
  {
    assert ReplaceBreaks("b") == "b";
    assert ReplaceBreaks(">b") == ">b";
    assert ReplaceBreaks("/>b") == "/>b";
    assert ReplaceBreaks("r/>b") == "r/>b";
    assert ReplaceBreaks("br/>b") == "br/>b";
    assert "<br/>b"[..4][3] == '/';
    assert ReplaceBreaks("<br/>b") == "<br/>b";
    assert ReplaceBreaks("a<br/>b") == "a<br/>b";
    assert FindClose(">b") == Some(0);
    assert FindClose("/>b") == Some(1);
    assert FindClose("r/>b") == Some(2);
    assert FindClose("br/>b") == Some(3);
    assert StripTags("b") == "b";
    assert StripTags("<br/>b") == "b";
  }

  /** An upper-case `<BR>` is removed like any other tag. */
  lemma UpperCaseBreakRemoved()
    ensures FormatContainer("a<BR>b") == "ab"
  {
    assert ReplaceBreaks("b") == "b";
    assert ReplaceBreaks(">b") == ">b";
    assert ReplaceBreaks("R>b") == "R>b";
    assert ReplaceBreaks("BR>b") == "BR>b";
    assert ReplaceBreaks("<BR>b") == "<BR>b";
    assert ReplaceBreaks("a<BR>b") == "a<BR>b";
    assert FindClose(">b") == Some(0);
    assert FindClose("R>b") == Some(1);
    assert FindClose("BR>b") == Some(2);
    assert StripTags("b") == "b";
    assert StripTags("<BR>b") == "b";
  }
}
