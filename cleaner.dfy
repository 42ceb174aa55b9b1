/**
 * The title cleaner `_replace_junk` as a value: every junk pattern once,
 * in order, then `strip()`, then the separator cleanup.
 */
module TitleCleaner {
  import opened Text
  import opened JunkPatterns
  import opened Separators

  /**
   * One step of the first loop of `_replace_junk`: search for the pattern
   * and, on a match, delete every occurrence of the captured text.
   */
  function ApplyPattern(t: string, p: JunkPattern): (r: string)
    ensures |r| <= |t|
  {
    match Search(p, t)
    case None => t
    case Some(sp) => DeleteAll(t, t[sp.start..sp.end])
  }

  /** The first loop of `_replace_junk`: each pattern once, in order. */
  function ApplyPatterns(t: string, ps: seq<JunkPattern>): (r: string)
    ensures |r| <= |t|
    decreases |ps|
  {
    if ps == [] then t else ApplyPatterns(ApplyPattern(t, ps[0]), ps[1..])
  }

  /** What `_replace_junk(title, *patterns)` returns. */
  function CleanTitle(title: string, patterns: seq<JunkPattern>): (r: string)
    ensures |r| <= |title|
  {
    StripSeparators(Strip(ApplyPatterns(title, patterns)))
  }

  /**
   * A match deletes the matched span and every later copy of the captured
   * text; the text before the match is kept, since the captured text never
   * occurs there. A pattern that does not match changes nothing.
   */
  lemma ApplyPatternDeletes(t: string, p: JunkPattern)
    ensures Search(p, t).None? ==> ApplyPattern(t, p) == t
    ensures Search(p, t).Some? ==>
      var sp := Search(p, t).value;
      ApplyPattern(t, p) == t[..sp.start] + DeleteAll(t[sp.end..], t[sp.start..sp.end])
  {
    if Search(p, t).Some? {
      var sp := Search(p, t).value;
      JunkLeftmostOccurrence(p, t);
      DeleteAllFromLeftmost(t, sp.start, sp.end);
    }
  }

  /** A match whose captured text is empty leaves the title as it is. */
  lemma EmptyCaptureChangesNothing(t: string, p: JunkPattern)
    requires Search(p, t).Some? && Search(p, t).value.start == Search(p, t).value.end
    ensures ApplyPattern(t, p) == t
  {
  }

  /** With no patterns, a title whose trimmed form has no separator at either end comes back trimmed. */
  lemma CleanTitleWithoutPatterns(title: string)
    requires var s := Strip(title); s == [] || (!IsSeparator(s[0]) && !IsSeparator(s[|s| - 1]))
    ensures CleanTitle(title, []) == Strip(title)
  {
    StripSeparatorsNoSeparator(Strip(title));
  }

  /** With no patterns, a single-line title is trimmed and then peeled once at each end. */
  lemma CleanTitleSeparators(title: string)
    requires NoNewline(title)
    ensures CleanTitle(title, []) == PeelTrailing(PeelLeading(Strip(title)))
  {
    StripKeepsNoNewline(title);
    StripSeparatorsOnStripped(Strip(title));
  }

  /** Only one separator layer goes at the start: "- - Song" becomes "- Song". */
  lemma OneLeadingLayer(t: string)
    requires t == "- - Song"
    ensures CleanTitle(t, []) == "- Song"
  {
    assert Stripped(t) && NoNewline(t);
    StripOfStripped(t);
    CleanTitleSeparators(t);
    assert IsSpace(t[1]) && !IsSpace(t[2]);
    assert SpaceEnd(t, 2) == 2;
    assert SpaceEnd(t, 1) == 2;
    assert t[2..] == "- Song";
  }

  /** A lone separator survives the cleanup: " - " becomes "-". */
  lemma LoneSeparatorSurvives(t: string)
    requires t == " - "
    ensures CleanTitle(t, []) == "-"
  {
    assert IsSpace(t[0]) && !IsSpace(t[1]) && IsSpace(t[2]);
    assert LStrip(t[1..]) == t[1..];
    assert LStrip(t) == t[1..];
    assert RStrip(t[1..][..1]) == "-";
    assert RStrip(t[1..]) == "-";
    assert Strip(t) == "-";
    CleanTitleSeparators(t);
  }

  /** The whitespace before a trailing separator stays: "Song -" becomes "Song ". */
  lemma TrailingStripKeepsSpace(t: string)
    requires t == "Song -"
    ensures CleanTitle(t, []) == "Song "
  {
    assert Stripped(t) && NoNewline(t) && !IsSeparator(t[0]);
    StripOfStripped(t);
    CleanTitleSeparators(t);
    assert PeelLeading(t) == t;
    assert t[..5] == "Song ";
  }

  /**
   * The quality pattern deletes "(feat. X) Song [HD]" whole, because its
   * match runs from the first opener to the closer after "HD".
   */
  lemma FeatSongHdRemovedWhole(t: string)
    requires t == "(feat. X) Song [HD]"
    ensures ApplyPattern(t, YoutubeTitleJunk[1]) == ""
  {
    FeatSongHdMatchesWhole(t);
    ApplyPatternDeletes(t, YoutubeTitleJunk[1]);
    assert t[..0] == [] && t[|t|..] == [] && t[0..|t|] == t;
  }
}
