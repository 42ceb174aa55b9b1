# fromyoutubetitle, modelled in Dafny

This project models the core of the beets plugin `fromyoutubetitle`
(`src/beetsplug/youtubetitle.py`). The plugin runs when an import task
starts. For each item, it fills an empty title with the item's file name,
cleaned of the junk that YouTube uploads carry ("(Official Video)",
"[HD]", "(Prod. By X)", the album or artist name, leading and trailing
dashes). When enabled, it also fills an empty album with the parent
directory's name and an empty artist with the grandparent directory's name.

Modules:

- `Text`: `str.isspace`, ASCII case folding, `str.strip()` and
  `str.replace(junk, "")`, the last as `DeleteAll`.
- `PathInference`: `PurePath.name`, `.parent` and `.stem`, and the three
  path inference helpers.
- `JunkPatterns`: the 13 static bracketed patterns and the album and artist
  patterns. Each is a hand-written matcher that follows the regular
  expression's own search order:
  - the lazy `.*?` stops at the first position that can complete the match;
  - alternatives are tried left to right;
  - `.` does not cross a line break;
  - `search` returns the leftmost match.
- `Separators`: the two anchored `EXTRA_STRIP_PATTERNS`, with `.+`
  backtracking and `$` also holding before a final line break.
- `TitleCleaner`: `_replace_junk` as a function, with its deletion, length
  and separator lemmas.
- `YoutubeTitle`: the `Item` class, whose tags the hook sets in place, and
  the plugin class. The plugin class has the imperative `_replace_junk`,
  `get_clean_title` and `clean_youtube_metadata`, each proved against the
  functions above.

A title that is only a separator, such as " - ", cleans to "-". The
leading separator pattern needs at least one character after the separator,
and the trailing one needs at least one character before it
(`TitleCleaner.LoneSeparatorSurvives`).

## Model

| member | source | states |
|---|---|---|
| PathInference.Name | src/beetsplug/youtubetitle.py:40 | `.name` is the last component: a path is its parent plus its name; a path with no components has name "" |
| PathInference.Parent | src/beetsplug/youtubetitle.py:40 | `.parent` is the path without its last component; a path with no components is its own parent |
| PathInference.RFind | src/beetsplug/youtubetitle.py:35 | the index found holds the character and is the last such index; None means the character does not occur |
| PathInference.Stem | src/beetsplug/youtubetitle.py:33-35 | the stem is a prefix of the file name |
| PathInference.StemDropsLastExtension | src/beetsplug/youtubetitle.py:33-35 | only the last extension is dropped: the stem of `base.ext` is `base` when ext has no dot |
| PathInference.TrackTitleFromPath | src/beetsplug/youtubetitle.py:33-35 | the raw title is a prefix of the file name, and the whole name when the name has no dot |
| PathInference.StemWithoutDot | src/beetsplug/youtubetitle.py:33-35 | a name without a dot is its own stem |
| PathInference.AlbumNameFromPath | src/beetsplug/youtubetitle.py:38-40 | the album is the second-to-last path component, or "" when there is none |
| PathInference.ArtistNameFromPath | src/beetsplug/youtubetitle.py:43-45 | the artist is the third-to-last path component, or "" when there is none |
| PathInference.PathInferenceOfLayout | src/beetsplug/youtubetitle.py:33-45 | for `.../Artist/Album/Track.ext`, the three helpers give Track, Album and Artist |
| Text.IsSpace | src/beetsplug/youtubetitle.py:28-29 | `\s` and `strip()` treat exactly Python's 29 whitespace code points as whitespace, listed one by one |
| Text.Lower | src/beetsplug/youtubetitle.py:11-23 | models `(?i)` as ASCII folding: A-Z onto a-z, other characters unchanged |
| Text.LStrip | src/beetsplug/youtubetitle.py:141 | the result is a suffix; everything removed is whitespace; the result does not start with whitespace |
| Text.RStrip | src/beetsplug/youtubetitle.py:141 | the result is a prefix; everything removed is whitespace; the result does not end with whitespace |
| Text.Strip | src/beetsplug/youtubetitle.py:141 | `strip()` gives a contiguous piece of the input, with only whitespace around it and none at either end of it |
| Text.StripOfStripped | src/beetsplug/youtubetitle.py:141 | stripping a string with nothing to trim changes nothing |
| Text.StripKeepsNoNewline | src/beetsplug/youtubetitle.py:141 | stripping never creates a line break |
| Text.DeleteAll | src/beetsplug/youtubetitle.py:139 | `replace(junk, "")` never makes a title longer |
| Text.DeleteAllSplit | src/beetsplug/youtubetitle.py:139 | the scan skips past the leftmost occurrence: text before it is kept, and later copies are deleted too |
| Text.DeleteAllFromLeftmost | src/beetsplug/youtubetitle.py:139 | deleting the text s[a..b], when it does not occur before a, keeps s[..a] and deletes it from s[b..] |
| Text.DeleteAllShrinks | src/beetsplug/youtubetitle.py:139 | deleting a non-empty text that occurs makes the title strictly shorter |
| Text.DeleteAllAbsent | src/beetsplug/youtubetitle.py:139 | deleting a text that does not occur changes nothing |
| Text.DeleteAllUnchanged | src/beetsplug/youtubetitle.py:139 | `replace` leaves the title unchanged exactly when the junk is empty or does not occur |
| JunkPatterns.Literal | src/beetsplug/youtubetitle.py:54 | a literal keyword has one letter position per character of the text |
| JunkPatterns.LiteralAt | src/beetsplug/youtubetitle.py:54 | an escaped literal matches exactly where the text occurs, ignoring case |
| JunkPatterns.FirstCloser | src/beetsplug/youtubetitle.py:11-23 | the lazy `.*?[\)\]\}]` stops at the first closer on the line, and exists exactly when a closer is reachable |
| JunkPatterns.FirstHitWord | src/beetsplug/youtubetitle.py:11-23 | the alternation takes the first alternative that matches and can still reach a closer |
| JunkPatterns.FirstHitPos | src/beetsplug/youtubetitle.py:11-23 | the lazy `.*?` before the keyword stops at the first position where a keyword can complete the match |
| JunkPatterns.BracketAt | src/beetsplug/youtubetitle.py:11-23 | an anchored bracketed match is non-empty |
| JunkPatterns.AlbumAt | src/beetsplug/youtubetitle.py:48-54 | an album match is exactly the name plus two parentheses long |
| JunkPatterns.OptionalCloseParen | src/beetsplug/youtubetitle.py:63 | the greedy `\)?` consumes one character exactly when a `)` is there, and nothing otherwise |
| JunkPatterns.ArtistAt | src/beetsplug/youtubetitle.py:57-63 | an artist match covers at least the name |
| JunkPatterns.MatchAt | src/beetsplug/youtubetitle.py:10-24 | an anchored match ends inside the title |
| JunkPatterns.SearchFrom | src/beetsplug/youtubetitle.py:137 | the first start position from s that matches; none of the earlier ones match |
| JunkPatterns.Search | src/beetsplug/youtubetitle.py:137 | `search` returns the leftmost match; None means no start position matches |
| JunkPatterns.RemoveAlbumNamePattern | src/beetsplug/youtubetitle.py:48-54 | the built pattern matches at s exactly when `(`, the album name ignoring case, and `)` follow each other there |
| JunkPatterns.RemoveArtistNamePattern | src/beetsplug/youtubetitle.py:57-63 | the built pattern matches at s exactly when the artist name, ignoring case, starts there or just after a `(` there |
| JunkPatterns.ProducedBy | src/beetsplug/youtubetitle.py:23 | `Prod(?:uced\|\.)?\sBy` tries `Produced`, then `Prod.`, then `Prod`, each followed by one whitespace character and `By`, ignoring case |
| JunkPatterns.SpacedKeywordAt | src/beetsplug/youtubetitle.py:11-23 | a keyword `a\sb` matches exactly where a, one whitespace character and b follow each other, ignoring case |
| JunkPatterns.BracketMatchShape | src/beetsplug/youtubetitle.py:11-23 | a bracketed match starts with an opener and ends with the first closer after the first keyword that can complete it, with no earlier keyword position or alternative |
| JunkPatterns.BracketMatchExact | src/beetsplug/youtubetitle.py:11-23 | a bracketed pattern matches at s exactly when an opener there can reach a keyword and then a closer on the same line |
| JunkPatterns.BracketSearchShape | src/beetsplug/youtubetitle.py:11-23 | a static search hit starts at the leftmost opener that can reach a keyword and then a closer; it contains the keyword, ignoring case, and ends at a closer |
| JunkPatterns.AlbumMatchExact | src/beetsplug/youtubetitle.py:48-54 | the album pattern matches exactly `(` + the name, ignoring case, + `)` |
| JunkPatterns.ArtistMatchExact | src/beetsplug/youtubetitle.py:57-63 | the artist pattern matches where the name does, or at a `(` before it; a parenthesis on either side is taken whenever it is there |
| JunkPatterns.FoldOccursInCopy | src/beetsplug/youtubetitle.py:137-139 | a case-insensitive occurrence inside the captured text recurs in every copy of that text |
| JunkPatterns.BracketCopyHit | src/beetsplug/youtubetitle.py:137-139 | a keyword hit inside a bracketed capture makes the pattern matchable at an earlier copy of the capture |
| JunkPatterns.BracketCopyMatches | src/beetsplug/youtubetitle.py:137-139 | a copy of a bracketed capture is itself a place where the pattern matches |
| JunkPatterns.AlbumCopyMatches | src/beetsplug/youtubetitle.py:137-139 | a copy of an album capture is itself a place where the album pattern matches |
| JunkPatterns.ArtistCopyMatches | src/beetsplug/youtubetitle.py:137-139 | a copy of an artist capture is itself a place where the artist pattern matches |
| JunkPatterns.CopyMatches | src/beetsplug/youtubetitle.py:137-139 | for every pattern, a copy of the captured text is a place where the pattern matches |
| JunkPatterns.JunkLeftmostOccurrence | src/beetsplug/youtubetitle.py:137-139 | the captured junk does not occur before the match |
| JunkPatterns.FeatNoHit | src/beetsplug/youtubetitle.py:12 | no quality keyword starts inside "(feat. X) Song " |
| JunkPatterns.FeatHit | src/beetsplug/youtubetitle.py:12 | at the "H" of "[HD]", `HD` completes the match and `HQ` does not |
| JunkPatterns.FeatSongHdMatchesWhole | src/beetsplug/youtubetitle.py:12 | the quality pattern's hit in "(feat. X) Song [HD]" is the whole title |
| Separators.SpaceEnd | src/beetsplug/youtubetitle.py:28-29 | the greedy `\s*` ends at the first non-whitespace character |
| Separators.LineEnd | src/beetsplug/youtubetitle.py:28-29 | the greedy `.*` ends at the first line break |
| Separators.AtEnd | src/beetsplug/youtubetitle.py:28-29 | `$` holds at the end of the title, or just before a final line break, and nowhere else |
| Separators.SpacesToEnd | src/beetsplug/youtubetitle.py:29 | the backtracking `\s*$` succeeds exactly when `$` holds somewhere in the range the `\s*` can end in |
| Separators.SeparatorToEnd | src/beetsplug/youtubetitle.py:29 | `\s*[-_\|]\s*$` succeeds exactly when some position the first `\s*` can end at holds a separator followed by whitespace up to `$` |
| Separators.DotsToEnd | src/beetsplug/youtubetitle.py:28 | the backtracking `.+$` ends where `$` holds, after at least one character |
| Separators.LeadingTitleFrom | src/beetsplug/youtubetitle.py:28 | a `title` group found after the separator is no longer than what follows position lo |
| Separators.LeadingFrom | src/beetsplug/youtubetitle.py:28 | the leading match after the opening whitespace yields a title shorter than the input |
| Separators.LeadingSeparatorMatch | src/beetsplug/youtubetitle.py:28 | `^\s*[-_\|]\s*(?P<title>.+)$` yields a title strictly shorter than the input |
| Separators.TrailingFrom | src/beetsplug/youtubetitle.py:29 | a trailing match ending its `title` at d yields a non-empty proper prefix |
| Separators.TrailingSeparatorMatch | src/beetsplug/youtubetitle.py:29 | `^(?P<title>.+)\s*[-_\|]\s*$` yields a non-empty proper prefix of the input |
| Separators.SeparatorMatch | src/beetsplug/youtubetitle.py:27-30 | each separator pattern's `title` is shorter than the input |
| Separators.ApplySeparator | src/beetsplug/youtubetitle.py:145-147 | one pass of the second loop never makes the title longer |
| Separators.ApplySeparators | src/beetsplug/youtubetitle.py:144-147 | the second loop never makes the title longer |
| Separators.StripSeparators | src/beetsplug/youtubetitle.py:143-147 | the separator cleanup never makes the title longer |
| Separators.LeadingSeparatorOnStripped | src/beetsplug/youtubetitle.py:28 | on a trimmed title: no match without a leading separator or with fewer than two characters; on one line, otherwise the separator and the whitespace after it go |
| Separators.SpacesToEndOnStripped | src/beetsplug/youtubetitle.py:29 | on a trimmed title, the trailing `\s*$` can only be empty at the end |
| Separators.SeparatorToEndOnStripped | src/beetsplug/youtubetitle.py:29 | on a trimmed title, the trailing separator can only be the last character |
| Separators.TrailingFromNone | src/beetsplug/youtubetitle.py:29 | on a trimmed title, no split before the last character matches |
| Separators.TrailingSeparatorOnStripped | src/beetsplug/youtubetitle.py:29 | on a trimmed single-line title, exactly the last character goes when it is a separator and something precedes it; the whitespace before it stays |
| Separators.StripSeparatorsOnStripped | src/beetsplug/youtubetitle.py:141-147 | on a trimmed single-line title, the cleanup peels one leading layer and then one trailing separator |
| Separators.StripSeparatorsNoSeparator | src/beetsplug/youtubetitle.py:144-147 | a title with no separator at either end goes through the cleanup unchanged |
| TitleCleaner.ApplyPattern | src/beetsplug/youtubetitle.py:137-139 | one pattern step never makes the title longer |
| TitleCleaner.ApplyPatterns | src/beetsplug/youtubetitle.py:136-139 | the first loop never makes the title longer |
| TitleCleaner.CleanTitle | src/beetsplug/youtubetitle.py:132-149 | `_replace_junk` never returns a title longer than its input |
| TitleCleaner.ApplyPatternDeletes | src/beetsplug/youtubetitle.py:137-139 | a match keeps the text before it and deletes the span and every later copy of the captured text; no match changes nothing |
| TitleCleaner.EmptyCaptureChangesNothing | src/beetsplug/youtubetitle.py:139 | an empty captured text leaves the title as it is |
| TitleCleaner.CleanTitleWithoutPatterns | src/beetsplug/youtubetitle.py:132-149 | with no patterns and no separator at either end of the trimmed title, the cleaner is `strip()` |
| TitleCleaner.CleanTitleSeparators | src/beetsplug/youtubetitle.py:141-147 | with no patterns, a single-line title is trimmed, then peeled once at the start and once at the end |
| TitleCleaner.OneLeadingLayer | src/beetsplug/youtubetitle.py:144-147 | "- - Song" cleans to "- Song": only one leading layer goes |
| TitleCleaner.LoneSeparatorSurvives | src/beetsplug/youtubetitle.py:141-147 | " - " cleans to "-" |
| TitleCleaner.TrailingStripKeepsSpace | src/beetsplug/youtubetitle.py:144-149 | "Song -" cleans to "Song ": the title is not trimmed again |
| TitleCleaner.FeatSongHdRemovedWhole | src/beetsplug/youtubetitle.py:12 | the quality pattern deletes "(feat. X) Song [HD]" whole |
| YoutubeTitle.FromYoutubeTitlePlugin.TitlePatterns | src/beetsplug/youtubetitle.py:119-130 | the album pattern comes first, then the artist pattern, each only when enabled; then the 13 static patterns, in catalogue order |
| YoutubeTitle.FromYoutubeTitlePlugin.SpecificPatterns | src/beetsplug/youtubetitle.py:119-128 | one pattern per enabled option, none of them bracketed: the album pattern first and the artist pattern last |
| YoutubeTitle.FromYoutubeTitlePlugin.CleanTitleFor | src/beetsplug/youtubetitle.py:113-130 | the cleaned title is never longer than the file name's stem |
| YoutubeTitle.FromYoutubeTitlePlugin.ReplaceJunk | src/beetsplug/youtubetitle.py:132-149 | the two loops and the `strip()` between them compute `CleanTitle` |
| YoutubeTitle.FromYoutubeTitlePlugin.GetCleanTitle | src/beetsplug/youtubetitle.py:113-130 | the list built by appends is `TitlePatterns`, so the result is the item path's cleaned stem |
| YoutubeTitle.FromYoutubeTitlePlugin.GetAlbum | src/beetsplug/youtubetitle.py:151-154 | the raw, uncleaned parent directory name, or "" |
| YoutubeTitle.FromYoutubeTitlePlugin.GetArtist | src/beetsplug/youtubetitle.py:156-159 | the raw, uncleaned grandparent directory name, or "" |
| YoutubeTitle.FromYoutubeTitlePlugin.Filled | src/beetsplug/youtubetitle.py:104-111 | a tag changes only when it is empty and, for album and artist, its option is on; an empty title gets the cleaned stem, an empty album or artist the directory name, or "" when the path has no such directory |
| YoutubeTitle.FromYoutubeTitlePlugin.FilledIdempotent | src/beetsplug/youtubetitle.py:103-111 | a second pass over an item changes nothing |
| YoutubeTitle.FromYoutubeTitlePlugin.CleanItem | src/beetsplug/youtubetitle.py:104-111 | one loop body fills the item's tags by the fill rule and leaves its path alone |
| YoutubeTitle.FromYoutubeTitlePlugin.CleanYoutubeMetadata | src/beetsplug/youtubetitle.py:103-111 | every item ends with its tags filled once, even when it is listed twice; paths are untouched |
| YoutubeTitle.FromYoutubeTitlePlugin.constructor | src/beetsplug/youtubetitle.py:91-92 | the two options are read once into `inferAlbum` and `inferArtist` |
| YoutubeTitle.Item.constructor | src/beetsplug/youtubetitle.py:103-111 | a new item holds the given path and tags |

## Left out

- Plugin registration and the configuration defaults (`src/beetsplug/youtubetitle.py:81-94`): the two option values are constructor parameters.
- The choice between a singleton task and an album task (`src/beetsplug/youtubetitle.py:98-101`): `CleanYoutubeMetadata` takes the resulting list of items.
- `displayable_path`: the model's `Path` is already a sequence of decoded component names. The anchor (root or drive) is not modelled because it never contributes a name.
- `lru_cache` on the pattern builders: it only caches values and does not change behaviour.
- `PathInference.Stem` follows `PurePath.stem` as in Python 3.8 to 3.13 (a dot that is the first or the last character does not start a suffix). Other Python versions' suffix rules are not modelled.
- `Text.Lower`: case-insensitive matching is modelled as ASCII folding only. Python's `(?i)` equates every cased non-ASCII letter with its partner (É and é, Ö and ö, Σ and σ, the Kelvin sign and `k`). The model matches none of these pairs, so an album or artist name, or a keyword, written with non-ASCII letters in a different case than in the title is not found.
- General regular expressions: each of the 17 patterns the plugin uses has its own matcher, and no other pattern can be expressed.
