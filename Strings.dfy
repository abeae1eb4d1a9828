/** Positional facts about text shared by the other modules. */
module Strings {

  /** `part` occurs in `s` starting at offset `at`. */
  predicate IsInfixAt(part: string, s: string, at: int) {
    0 <= at && at + |part| <= |s| && s[at..at + |part|] == part
  }

  /** `part` occurs somewhere in `s`. */
  ghost predicate Contains(s: string, part: string) {
    exists at :: IsInfixAt(part, s, at)
  }

  /** What is appended last stands at the end. */
  lemma InfixAtEnd(before: string, part: string)
    ensures IsInfixAt(part, before + part, |before|)
  {
  }

  /** Appending text keeps every earlier occurrence in place. */
  lemma InfixAppend(part: string, s: string, at: int, after: string)
    requires IsInfixAt(part, s, at)
    ensures IsInfixAt(part, s + after, at)
  {
  }

  /** The `lines` with `sep` between each two neighbours. */
  function Join(lines: seq<string>, sep: string): string
    decreases |lines|
  {
    if |lines| == 0 then []
    else if |lines| == 1 then lines[0]
    else lines[0] + sep + Join(lines[1..], sep)
  }
}
