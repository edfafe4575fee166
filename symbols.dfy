/**
 * Loading the symbol alphabet (create-challenge.py, lines 71-73): the first
 * line of the symbols file, as `readline()` returns it (newline included),
 * with `str.strip()` applied, which removes whitespace at BOTH ends.
 */
module Symbols {

  /** Python's `str.isspace()` for one character. */
  predicate IsSpace(c: char) {
    || ('\U{0009}' <= c <= '\U{000D}')
    || ('\U{001C}' <= c <= '\U{0020}')
    || c == '\U{0085}' || c == '\U{00A0}' || c == '\U{1680}'
    || ('\U{2000}' <= c <= '\U{200A}')
    || c == '\U{2028}' || c == '\U{2029}' || c == '\U{202F}' || c == '\U{205F}' || c == '\U{3000}'
  }

  /** Every character of s at positions lo .. hi - 1 is whitespace. */
  predicate SpaceBetween(s: string, lo: int, hi: int) {
    forall k :: 0 <= lo <= k < hi <= |s| ==> IsSpace(s[k])
  }

  /**
   * `r` is what `s.strip()` returns: a slice of `s` with only whitespace
   * outside it and, when it is not empty, no whitespace at either end.
   */
  ghost predicate StripsTo(s: string, r: string) {
    exists i, j :: 0 <= i <= j <= |s| && r == s[i..j]
      && SpaceBetween(s, 0, i) && SpaceBetween(s, j, |s|)
      && (i < j ==> !IsSpace(s[i]) && !IsSpace(s[j - 1]))
  }

  /** The first line of a file's text, as `readline()` returns it. */
  function ReadLine(contents: string): (line: string)
    ensures line <= contents
    ensures forall k :: 0 <= k < |line| - 1 ==> line[k] != '\n'
    ensures |line| == |contents| || (|line| > 0 && line[|line| - 1] == '\n')
    decreases |contents|
  {
    if contents == [] then []
    else if contents[0] == '\n' then ['\n']
    else [contents[0]] + ReadLine(contents[1..])
  }

  /** The number of whitespace characters at the start of s[from..]. */
  function LeadingSpace(s: string, from: nat): (i: nat)
    requires from <= |s|
    ensures from <= i <= |s|
    ensures SpaceBetween(s, from, i)
    ensures i < |s| ==> !IsSpace(s[i])
    decreases |s| - from
  {
    if from < |s| && IsSpace(s[from]) then LeadingSpace(s, from + 1) else from
  }

  /** The end of s[..upto] once its trailing whitespace is dropped, never below `floor`. */
  function TrailingSpace(s: string, floor: nat, upto: nat): (j: nat)
    requires floor <= upto <= |s|
    ensures floor <= j <= upto
    ensures SpaceBetween(s, j, upto)
    ensures j > floor ==> !IsSpace(s[j - 1])
    decreases upto
  {
    if upto > floor && IsSpace(s[upto - 1]) then TrailingSpace(s, floor, upto - 1) else upto
  }

  /** `str.strip()` with no argument. */
  function Strip(s: string): (r: string)
    ensures StripsTo(s, r)
  {
    var i := LeadingSpace(s, 0);
    var j := TrailingSpace(s, i, |s|);
    s[i..j]
  }

  /** The alphabet: the stripped first line of the symbols file. */
  function LoadSymbols(contents: string): string {
    Strip(ReadLine(contents))
  }

  /** Where two strippings of one string can start and end. */
  lemma StripBounds(s: string, i1: int, j1: int, i2: int, j2: int)
    requires 0 <= i1 <= j1 <= |s| && 0 <= i2 <= j2 <= |s|
    requires SpaceBetween(s, 0, i2) && SpaceBetween(s, j2, |s|)
    requires i1 < j1 ==> !IsSpace(s[i1]) && !IsSpace(s[j1 - 1])
    ensures i1 < j1 ==> i2 <= i1 && j1 <= j2
  {
    if i1 < j1 {
      assert !IsSpace(s[i1]) && !IsSpace(s[j1 - 1]);
    }
  }

  /** Any slice with only whitespace outside it and none at its ends is what `Strip` returns. */
  lemma StripAt(s: string, i: int, j: int)
    requires 0 <= i <= j <= |s|
    requires SpaceBetween(s, 0, i) && SpaceBetween(s, j, |s|)
    requires i < j ==> !IsSpace(s[i]) && !IsSpace(s[j - 1])
    ensures Strip(s) == s[i..j]
  {
    var i0 := LeadingSpace(s, 0);
    var j0 := TrailingSpace(s, i0, |s|);
    StripBounds(s, i, j, i0, j0);
    StripBounds(s, i0, j0, i, j);
  }

  /** There is only one way to strip a string, and `Strip` finds it. */
  lemma StripCanonical(s: string, r: string)
    requires StripsTo(s, r)
    ensures r == Strip(s)
  {
    var i, j :| 0 <= i <= j <= |s| && r == s[i..j]
      && SpaceBetween(s, 0, i) && SpaceBetween(s, j, |s|)
      && (i < j ==> !IsSpace(s[i]) && !IsSpace(s[j - 1]));
    StripAt(s, i, j);
  }

  /** Stripping twice is stripping once. */
  lemma StripIdempotent(s: string)
    ensures Strip(Strip(s)) == Strip(s)
  {
    var i := LeadingSpace(s, 0);
    var j := TrailingSpace(s, i, |s|);
    var r := s[i..j];
    assert Strip(s) == r;
    assert r != [] ==> r[0] == s[i] && r[|r| - 1] == s[j - 1];
    assert SpaceBetween(r, 0, 0) && SpaceBetween(r, |r|, |r|);
    StripAt(r, 0, |r|);
    assert r[0..|r|] == r;
  }

  /** A slice ending before the last character, or on one that is not whitespace, holds no newline. */
  lemma SliceHasNoNewline(line: string, i: int, j: int)
    requires forall k :: 0 <= k < |line| - 1 ==> line[k] != '\n'
    requires 0 <= i <= j <= |line| && (j > i ==> !IsSpace(line[j - 1]))
    ensures forall k :: 0 <= k < j - i ==> line[i..j][k] != '\n'
  {
    forall k | 0 <= k < j - i
      ensures line[i..j][k] != '\n'
    {
      assert line[i..j][k] == line[i + k];
      assert i + k < |line| - 1 || i + k == j - 1;
    }
  }

  /** Stripping a line with no newline before its last character leaves no newline. */
  lemma StrippedLineHasNoNewline(line: string)
    requires forall k :: 0 <= k < |line| - 1 ==> line[k] != '\n'
    ensures forall k :: 0 <= k < |Strip(line)| ==> Strip(line)[k] != '\n'
  {
    var i := LeadingSpace(line, 0);
    var j := TrailingSpace(line, i, |line|);
    SliceHasNoNewline(line, i, j);
    assert Strip(line) == line[i..j];
  }

  /** The alphabet never contains a newline: the line ends at the first one and strip drops it. */
  lemma SymbolsHaveNoNewline(contents: string)
    ensures forall k :: 0 <= k < |LoadSymbols(contents)| ==> LoadSymbols(contents)[k] != '\n'
  {
    StrippedLineHasNoNewline(ReadLine(contents));
  }

  lemma ExampleFirstLine()
    ensures ReadLine(" AB\t\nCD") == " AB\t\n"
  {
    var c4 := "\nCD";
    assert ReadLine(c4) == "\n";
    var c3 := "\t\nCD";
    assert c3[1..] == c4;
    assert ReadLine(c3) == "\t" + ReadLine(c4);
    var c2 := "B\t\nCD";
    assert c2[1..] == c3;
    assert ReadLine(c2) == "B" + ReadLine(c3);
    var c1 := "AB\t\nCD";
    assert c1[1..] == c2;
    assert ReadLine(c1) == "A" + ReadLine(c2);
    var c0 := " AB\t\nCD";
    assert c0[1..] == c1;
    assert ReadLine(c0) == " " + ReadLine(c1);
  }

  /** Leading whitespace goes too, not only the line end. */
  lemma StripRemovesBothEnds()
    ensures LoadSymbols(" AB\t\nCD") == "AB"
  {
    ExampleFirstLine();
    var line := " AB\t\n";
    assert IsSpace(line[0]) && !IsSpace(line[1]) && !IsSpace(line[2]) && IsSpace(line[3]) && IsSpace(line[4]);
    StripAt(line, 1, 3);
    assert line[1..3] == "AB";
  }
}
