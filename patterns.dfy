/**
 * The junk patterns: the static catalogue of bracketed promotional markers
 * and the two patterns built from an item's album and artist names. Each
 * pattern is a hand-written matcher that follows the search order of the
 * regular expression it stands for, and is characterised by lemmas.
 */
module JunkPatterns {
  import opened Wrappers
  import opened Text

  /** One position of a keyword: a letter compared under `(?i)`, or `\s`. */
  datatype Atom = Letter(c: char) | AnySpace

  /** A keyword alternative, such as `Parental\sAdvisory`. */
  type Word = seq<Atom>

  /** A literal text (as `re.escape` makes it) as a keyword. */
  function Literal(s: string): (w: Word)
    ensures |w| == |s| && forall i :: 0 <= i < |s| ==> w[i] == Letter(s[i])
  {
    seq(|s|, i requires 0 <= i < |s| => Letter(s[i]))
  }

  predicate AtomMatches(a: Atom, c: char) {
    match a
    case Letter(x) => SameLetter(x, c)
    case AnySpace => IsSpace(c)
  }

  /** The keyword w matches t at position k. */
  predicate WordAt(w: Word, t: string, k: nat) {
    k + |w| <= |t| && forall j :: 0 <= j < |w| ==> AtomMatches(w[j], t[k + j])
  }

  /** name matches t at position k, ignoring case. */
  predicate FoldOccursAt(name: string, t: string, k: nat) {
    k + |name| <= |t| && forall j :: 0 <= j < |name| ==> SameLetter(name[j], t[k + j])
  }

  lemma LiteralAt(name: string, t: string, k: nat)
    ensures WordAt(Literal(name), t, k) <==> FoldOccursAt(name, t, k)
  {
  }

  /**
   * A junk pattern; its only group `junk` spans the whole match.
   *   Bracketed(ws)   `(?i)[\(\[\{].*?(?:ws[0]|ws[1]|...).*?[\)\]\}]`
   *   AlbumName(n)    `(?i)\(n\)` with n escaped
   *   ArtistName(n)   `(?i)\(?n\)?` with n escaped
   */
  datatype JunkPattern =
    | Bracketed(keywords: seq<Word>)
    | AlbumName(album: string)
    | ArtistName(artist: string)

  /** The half-open span [start, end) of a match. */
  datatype Span = Span(start: nat, end: nat)

  predicate IsOpener(c: char) {
    c == '(' || c == '[' || c == '{'
  }

  predicate IsCloser(c: char) {
    c == ')' || c == ']' || c == '}'
  }

  /** `.*` can span t[i..j]: no line break in between. */
  predicate DotRun(t: string, i: nat, j: nat) {
    j <= |t| && forall m :: i <= m < j ==> t[m] != '\n'
  }

  /** Some closing bracket at or after p can be reached by `.*?`. */
  ghost predicate CloserReachable(t: string, p: nat) {
    exists c :: p <= c < |t| && IsCloser(t[c]) && DotRun(t, p, c)
  }

  /** Keyword alternative i matches at k and a closing bracket can follow it. */
  ghost predicate KeywordHit(words: seq<Word>, t: string, k: nat, i: int) {
    0 <= i < |words| && WordAt(words[i], t, k) && CloserReachable(t, k + |words[i]|)
  }

  /** No keyword alternative can complete a match at k. */
  ghost predicate NoHitAt(words: seq<Word>, t: string, k: nat) {
    forall i :: 0 <= i < |words| ==> !KeywordHit(words, t, k, i)
  }

  /** The bracketed pattern can match at s: an opener, then a keyword, then a closer, with no line break between them. */
  ghost predicate BracketMatchable(words: seq<Word>, t: string, s: nat) {
    s < |t| && IsOpener(t[s]) &&
    exists k: nat, i :: s < k && DotRun(t, s + 1, k) && KeywordHit(words, t, k, i)
  }

  /** `.*?[\)\]\}]` from p: the first closing bracket, unless a line break or the end comes first. */
  function FirstCloser(t: string, p: nat): (r: Option<nat>)
    requires p <= |t|
    ensures r.Some? ==> p <= r.value < |t| && IsCloser(t[r.value]) && DotRun(t, p, r.value)
    ensures r.Some? ==> forall m :: p <= m < r.value ==> !IsCloser(t[m])
    ensures r.Some? <==> CloserReachable(t, p)
    decreases |t| - p
  {
    if p == |t| then None
    else if IsCloser(t[p]) then Some(p)
    else if t[p] == '\n' then None
    else FirstCloser(t, p + 1)
  }

  /** The alternation at k: the first alternative, from i on, that matches and can be followed by a closer. */
  function FirstHitWord(words: seq<Word>, t: string, k: nat, i: nat): (r: Option<nat>)
    requires i <= |words|
    ensures r.Some? ==> i <= r.value < |words| && KeywordHit(words, t, k, r.value)
    ensures r.Some? ==> forall j :: i <= j < r.value ==> !KeywordHit(words, t, k, j)
    ensures r.None? ==> forall j :: i <= j < |words| ==> !KeywordHit(words, t, k, j)
    decreases |words| - i
  {
    if i == |words| then None
    else if WordAt(words[i], t, k) && FirstCloser(t, k + |words[i]|).Some? then Some(i)
    else FirstHitWord(words, t, k, i + 1)
  }

  /** The lazy `.*?` before the keyword: the first position from k on where a keyword can complete the match. */
  function FirstHitPos(words: seq<Word>, t: string, k: nat): (r: Option<nat>)
    requires k <= |t|
    ensures r.Some? ==> k <= r.value <= |t| && DotRun(t, k, r.value) && !NoHitAt(words, t, r.value)
    ensures r.Some? ==> forall m :: k <= m < r.value ==> NoHitAt(words, t, m)
    ensures r.None? ==> forall m :: k <= m <= |t| && DotRun(t, k, m) ==> NoHitAt(words, t, m)
    decreases |t| - k
  {
    if FirstHitWord(words, t, k, 0).Some? then Some(k)
    else if k < |t| && t[k] != '\n' then FirstHitPos(words, t, k + 1)
    else None
  }

  /** The bracketed pattern anchored at s: the end of its match, if any. */
  function BracketAt(words: seq<Word>, t: string, s: nat): (r: Option<nat>)
    requires s <= |t|
    ensures r.Some? ==> s < r.value <= |t|
  {
    if s < |t| && IsOpener(t[s]) then
      match FirstHitPos(words, t, s + 1)
      case None => None
      case Some(k) =>
        var i := FirstHitWord(words, t, k, 0).value;
        Some(FirstCloser(t, k + |words[i]|).value + 1)
    else None
  }

  /** The album pattern anchored at s. */
  function AlbumAt(name: string, t: string, s: nat): (r: Option<nat>)
    requires s <= |t|
    ensures r.Some? ==> r.value == s + |name| + 2 <= |t|
  {
    var close := s + 1 + |name|;
    if s < |t| && t[s] == '(' && WordAt(Literal(name), t, s + 1) && close < |t| && t[close] == ')'
    then Some(close + 1)
    else None
  }

  /** The greedy optional `\)?` at p. */
  function OptionalCloseParen(t: string, p: nat): (r: nat)
    requires p <= |t|
    ensures p <= r <= |t|
    ensures r <= p + 1 && (r == p + 1 <==> p < |t| && t[p] == ')')
  {
    if p < |t| && t[p] == ')' then p + 1 else p
  }

  /** The artist pattern anchored at s: the greedy `\(?` is tried first, then the name without it. */
  function ArtistAt(name: string, t: string, s: nat): (r: Option<nat>)
    requires s <= |t|
    ensures r.Some? ==> s + |name| <= r.value <= |t|
  {
    if s < |t| && t[s] == '(' && WordAt(Literal(name), t, s + 1) then Some(OptionalCloseParen(t, s + 1 + |name|))
    else if WordAt(Literal(name), t, s) then Some(OptionalCloseParen(t, s + |name|))
    else None
  }

  /** The pattern anchored at s (`pattern.match(t, s)`): the end of its match, if any. */
  function MatchAt(p: JunkPattern, t: string, s: nat): (r: Option<nat>)
    requires s <= |t|
    ensures r.Some? ==> s <= r.value <= |t|
  {
    match p
    case Bracketed(words) => BracketAt(words, t, s)
    case AlbumName(name) => AlbumAt(name, t, s)
    case ArtistName(name) => ArtistAt(name, t, s)
  }

  /** Tries the start positions s, s + 1, ..., |t| in turn. */
  function SearchFrom(p: JunkPattern, t: string, s: nat): (r: Option<Span>)
    requires s <= |t|
    ensures r.Some? ==> s <= r.value.start <= |t| && MatchAt(p, t, r.value.start) == Some(r.value.end)
    ensures r.Some? ==> forall m :: s <= m < r.value.start ==> MatchAt(p, t, m).None?
    ensures r.None? ==> forall m :: s <= m <= |t| ==> MatchAt(p, t, m).None?
    decreases |t| - s
  {
    match MatchAt(p, t, s)
    case Some(e) => Some(Span(s, e))
    case None => if s < |t| then SearchFrom(p, t, s + 1) else None
  }

  /** `pattern.search(t)`: the leftmost match, and the span of its `junk` group. */
  function Search(p: JunkPattern, t: string): (r: Option<Span>)
    ensures r.Some? ==> r.value.start <= r.value.end <= |t| && MatchAt(p, t, r.value.start) == Some(r.value.end)
    ensures r.Some? ==> forall m :: 0 <= m < r.value.start ==> MatchAt(p, t, m).None?
    ensures r.None? ==> forall m :: 0 <= m <= |t| ==> MatchAt(p, t, m).None?
  {
    SearchFrom(p, t, 0)
  }

  /** `remove_album_name_pattern`: the album name in parentheses, literally and ignoring case. */
  function RemoveAlbumNamePattern(albumName: string): (p: JunkPattern)
    ensures forall t: string, s: nat {:trigger MatchAt(p, t, s)} :: s <= |t| ==>
      (MatchAt(p, t, s).Some? <==>
        (s + |albumName| + 2 <= |t| && t[s] == '(' && FoldOccursAt(albumName, t, s + 1) && t[s + |albumName| + 1] == ')'))
  {
    forall t: string, s: nat | s <= |t|
      ensures AlbumAt(albumName, t, s).Some? <==>
        (s + |albumName| + 2 <= |t| && t[s] == '(' && FoldOccursAt(albumName, t, s + 1) && t[s + |albumName| + 1] == ')')
    {
      AlbumMatchExact(albumName, t, s);
    }
    AlbumName(albumName)
  }

  /** `remove_artist_name_pattern`: the artist name, with an optional parenthesis on each side. */
  function RemoveArtistNamePattern(artistName: string): (p: JunkPattern)
    ensures forall t: string, s: nat {:trigger MatchAt(p, t, s)} :: s <= |t| ==>
      (MatchAt(p, t, s).Some? <==>
        (s < |t| && t[s] == '(' && FoldOccursAt(artistName, t, s + 1)) || FoldOccursAt(artistName, t, s))
  {
    forall t: string, s: nat | s <= |t|
      ensures ArtistAt(artistName, t, s).Some? <==>
        (s < |t| && t[s] == '(' && FoldOccursAt(artistName, t, s + 1)) || FoldOccursAt(artistName, t, s)
    {
      ArtistMatchExact(artistName, t, s);
    }
    ArtistName(artistName)
  }

  /** `Prod(?:uced|\.)?\sBy`: the optional group tries `uced`, then `.`, then nothing. */
  function ProducedBy(): (ws: seq<Word>)
    ensures |ws| == 3
    ensures forall t: string, k: nat {:trigger WordAt(ws[0], t, k)} :: WordAt(ws[0], t, k) <==>
      FoldOccursAt("Produced", t, k) && k + 8 < |t| && IsSpace(t[k + 8]) && FoldOccursAt("By", t, k + 9)
    ensures forall t: string, k: nat {:trigger WordAt(ws[1], t, k)} :: WordAt(ws[1], t, k) <==>
      FoldOccursAt("Prod.", t, k) && k + 5 < |t| && IsSpace(t[k + 5]) && FoldOccursAt("By", t, k + 6)
    ensures forall t: string, k: nat {:trigger WordAt(ws[2], t, k)} :: WordAt(ws[2], t, k) <==>
      FoldOccursAt("Prod", t, k) && k + 4 < |t| && IsSpace(t[k + 4]) && FoldOccursAt("By", t, k + 5)
  {
    forall t: string, k: nat
      ensures WordAt(Literal("Produced") + [AnySpace] + Literal("By"), t, k) <==>
        FoldOccursAt("Produced", t, k) && k + 8 < |t| && IsSpace(t[k + 8]) && FoldOccursAt("By", t, k + 9)
      ensures WordAt(Literal("Prod.") + [AnySpace] + Literal("By"), t, k) <==>
        FoldOccursAt("Prod.", t, k) && k + 5 < |t| && IsSpace(t[k + 5]) && FoldOccursAt("By", t, k + 6)
      ensures WordAt(Literal("Prod") + [AnySpace] + Literal("By"), t, k) <==>
        FoldOccursAt("Prod", t, k) && k + 4 < |t| && IsSpace(t[k + 4]) && FoldOccursAt("By", t, k + 5)
    {
      SpacedKeywordAt("Produced", "By", t, k);
      SpacedKeywordAt("Prod.", "By", t, k);
      SpacedKeywordAt("Prod", "By", t, k);
    }
    [Literal("Produced") + [AnySpace] + Literal("By"),
     Literal("Prod.") + [AnySpace] + Literal("By"),
     Literal("Prod") + [AnySpace] + Literal("By")]
  }

  /** A keyword `a\sb` matches where a, one whitespace character and b follow each other, ignoring case. */
  lemma SpacedKeywordAt(a: string, b: string, t: string, k: nat)
    ensures WordAt(Literal(a) + [AnySpace] + Literal(b), t, k) <==>
      FoldOccursAt(a, t, k) && k + |a| < |t| && IsSpace(t[k + |a|]) && FoldOccursAt(b, t, k + |a| + 1)
  {
    var w := Literal(a) + [AnySpace] + Literal(b);
    if WordAt(w, t, k) {
      forall j | 0 <= j < |a| ensures SameLetter(a[j], t[k + j]) {
        assert w[j] == Letter(a[j]);
        assert AtomMatches(w[j], t[k + j]);
      }
      assert AtomMatches(w[|a|], t[k + |a|]);
      forall j | 0 <= j < |b| ensures SameLetter(b[j], t[k + |a| + 1 + j]) {
        assert w[|a| + 1 + j] == Letter(b[j]);
        assert AtomMatches(w[|a| + 1 + j], t[k + (|a| + 1 + j)]);
      }
    }
    if FoldOccursAt(a, t, k) && k + |a| < |t| && IsSpace(t[k + |a|]) && FoldOccursAt(b, t, k + |a| + 1) {
      forall j | 0 <= j < |w| ensures AtomMatches(w[j], t[k + j]) {
        if j < |a| {
          assert w[j] == Letter(a[j]);
        } else if j > |a| {
          assert w[j] == Letter(b[j - |a| - 1]);
          assert SameLetter(b[j - |a| - 1], t[k + |a| + 1 + (j - |a| - 1)]);
        }
      }
    }
  }

  /** `YOUTUBE_TITLE_JUNK`, in order. */
  const YoutubeTitleJunk: seq<JunkPattern> := [
    Bracketed([Literal("Explicit"), Literal("Clean"), Literal("Parental") + [AnySpace] + Literal("Advisory")]),
    Bracketed([Literal("HQ"), Literal("HD"), Literal("CDQ")]),
    Bracketed([Literal("Audio")]),
    Bracketed([Literal("Album")]),
    Bracketed([Literal("Song")]),
    Bracketed([Literal("Video")]),
    Bracketed([Literal("Lyric")]),
    Bracketed([Literal("Visualizer")]),
    Bracketed([Literal("iTunes")]),
    Bracketed([Literal("Official")]),
    Bracketed([Literal("Original")]),
    Bracketed([Literal("Version")]),
    Bracketed(ProducedBy())
  ]

  /**
   * What a bracketed match looks like: keyword alternative i matches at k
   * after the opener at s, and e - 1 is the first closer after it; no
   * earlier position and no earlier alternative at k completes a match.
   */
  ghost predicate BracketWitness(words: seq<Word>, t: string, s: nat, e: nat, k: nat, i: int) {
    BracketHit(words, t, s, e, k, i) &&
    (forall m :: k + |words[i]| <= m < e - 1 ==> !IsCloser(t[m])) &&
    (forall m :: s < m < k ==> NoHitAt(words, t, m)) &&
    (forall j :: 0 <= j < i ==> !KeywordHit(words, t, k, j))
  }

  /** Keyword alternative i at k lies between the opener at s and the closer at e - 1, with no line break between them. */
  ghost predicate BracketHit(words: seq<Word>, t: string, s: nat, e: nat, k: nat, i: int) {
    0 <= i < |words| && s < k && k + |words[i]| < e <= |t| &&
    IsOpener(t[s]) && IsCloser(t[e - 1]) &&
    WordAt(words[i], t, k) && DotRun(t, s + 1, k) && DotRun(t, k + |words[i]|, e - 1)
  }

  /**
   * A bracketed match starts with an opener and ends with the first closer
   * after the first keyword occurrence that can be closed; it may span
   * other brackets on the way.
   */
  lemma BracketMatchShape(words: seq<Word>, t: string, s: nat, e: nat)
    requires s <= |t| && BracketAt(words, t, s) == Some(e)
    ensures IsOpener(t[s]) && IsCloser(t[e - 1])
    ensures exists k: nat, i :: BracketWitness(words, t, s, e, k, i)
  {
    var k := FirstHitPos(words, t, s + 1).value;
    var i := FirstHitWord(words, t, k, 0).value;
    assert BracketWitness(words, t, s, e, k, i);
  }

  /** The bracketed pattern matches at s exactly when an opener there can reach a keyword and then a closer. */
  lemma BracketMatchExact(words: seq<Word>, t: string, s: nat)
    requires s <= |t|
    ensures BracketAt(words, t, s).Some? <==> BracketMatchable(words, t, s)
  {
    if BracketAt(words, t, s).Some? {
      var k := FirstHitPos(words, t, s + 1).value;
      var i := FirstHitWord(words, t, k, 0).value;
      assert KeywordHit(words, t, k, i);
    }
  }

  /** The album pattern matches exactly `(` + the album name, ignoring case + `)`. */
  lemma AlbumMatchExact(name: string, t: string, s: nat)
    requires s <= |t|
    ensures AlbumAt(name, t, s).Some? <==>
      (s + |name| + 2 <= |t| && t[s] == '(' && FoldOccursAt(name, t, s + 1) && t[s + |name| + 1] == ')')
  {
    LiteralAt(name, t, s + 1);
  }

  /**
   * The artist match: an optional `(`, the artist name ignoring case, an
   * optional `)`; each parenthesis is taken whenever it is there.
   */
  ghost predicate ArtistShape(name: string, t: string, s: nat, e: nat, withOpen: bool, withClose: bool) {
    var b := if withOpen then s + 1 else s;
    var m := b + |name|;
    e == (if withClose then m + 1 else m) && e <= |t| &&
    FoldOccursAt(name, t, b) &&
    (withOpen <==> s < |t| && t[s] == '(' && FoldOccursAt(name, t, s + 1)) &&
    (withClose <==> m < |t| && t[m] == ')')
  }

  /** The artist pattern matches where the name does, or just after a `(`. */
  lemma ArtistMatchExact(name: string, t: string, s: nat)
    requires s <= |t|
    ensures ArtistAt(name, t, s).Some? <==>
      (s < |t| && t[s] == '(' && FoldOccursAt(name, t, s + 1)) || FoldOccursAt(name, t, s)
    ensures ArtistAt(name, t, s).Some? ==>
      exists withOpen, withClose :: ArtistShape(name, t, s, ArtistAt(name, t, s).value, withOpen, withClose)
  {
    LiteralAt(name, t, s + 1);
    LiteralAt(name, t, s);
    if ArtistAt(name, t, s).Some? {
      var e := ArtistAt(name, t, s).value;
      var withOpen := s < |t| && t[s] == '(' && FoldOccursAt(name, t, s + 1);
      var m := (if withOpen then s + 1 else s) + |name|;
      var withClose := m < |t| && t[m] == ')';
      assert ArtistShape(name, t, s, e, withOpen, withClose);
    }
  }

  /** A fold-match inside u = t[b..b + |u|] is repeated in the copy of u at a. */
  lemma FoldOccursInCopy(name: string, t: string, u: string, a: nat, b: nat, off: nat)
    requires OccursAt(u, t, a) && OccursAt(u, t, b)
    requires off + |name| <= |u| && FoldOccursAt(name, t, b + off)
    ensures FoldOccursAt(name, t, a + off)
  {
    forall j | 0 <= j < |name| ensures SameLetter(name[j], t[a + off + j]) {
      assert t[a + off + j] == u[off + j] == t[b + off + j];
    }
  }

  /** A copy of a bracketed match earlier in t is itself a match. */
  lemma BracketCopyMatches(words: seq<Word>, t: string, s: nat, e: nat, a: nat)
    requires s <= |t| && BracketAt(words, t, s) == Some(e)
    requires a < s && OccursAt(t[s..e], t, a)
    ensures BracketAt(words, t, a).Some?
  {
    BracketMatchShape(words, t, s, e);
    var k: nat, i :| BracketWitness(words, t, s, e, k, i);
    BracketCopyHit(words, t, s, e, k, i, a);
    BracketMatchExact(words, t, a);
  }

  lemma BracketCopyHit(words: seq<Word>, t: string, s: nat, e: nat, k: nat, i: int, a: nat)
    requires BracketHit(words, t, s, e, k, i)
    requires a < s && OccursAt(t[s..e], t, a)
    ensures BracketMatchable(words, t, a)
  {
    var u := t[s..e];
    var d := s - a;
    var w := words[i];
    var k' := k - d;
    var c := e - 1 - d;
    assert t[a] == u[0] == t[s];
    assert t[c] == u[e - 1 - s] == t[e - 1];
    forall m | a + 1 <= m < k' ensures t[m] != '\n' {
      assert t[m] == u[m - a] == t[m + d];
    }
    forall x | 0 <= x < |w| ensures AtomMatches(w[x], t[k' + x]) {
      assert t[k' + x] == u[k' + x - a] == t[k + x];
    }
    forall m | k' + |w| <= m < c ensures t[m] != '\n' {
      assert t[m] == u[m - a] == t[m + d];
    }
    assert DotRun(t, k' + |w|, c);
    assert CloserReachable(t, k' + |w|);
    assert KeywordHit(words, t, k', i);
  }

  /** A copy of an album match earlier in t is itself a match. */
  lemma AlbumCopyMatches(name: string, t: string, s: nat, e: nat, a: nat)
    requires s <= |t| && AlbumAt(name, t, s) == Some(e)
    requires a < s && OccursAt(t[s..e], t, a)
    ensures AlbumAt(name, t, a).Some?
  {
    var u := t[s..e];
    AlbumMatchExact(name, t, s);
    assert t[a] == u[0] == t[s];
    assert t[a + |u| - 1] == u[|u| - 1] == t[e - 1];
    FoldOccursInCopy(name, t, u, a, s, 1);
    AlbumMatchExact(name, t, a);
  }

  /** A copy of an artist match earlier in t is itself a match. */
  lemma ArtistCopyMatches(name: string, t: string, s: nat, e: nat, a: nat)
    requires s <= |t| && ArtistAt(name, t, s) == Some(e)
    requires a < s && OccursAt(t[s..e], t, a)
    ensures ArtistAt(name, t, a).Some?
  {
    var u := t[s..e];
    ArtistMatchExact(name, t, s);
    var withOpen, withClose :| ArtistShape(name, t, s, e, withOpen, withClose);
    ArtistMatchExact(name, t, a);
    if withOpen {
      assert t[a] == u[0] == t[s];
      FoldOccursInCopy(name, t, u, a, s, 1);
    } else {
      FoldOccursInCopy(name, t, u, a, s, 0);
    }
  }

  /** A copy of any pattern's match earlier in t is itself a match. */
  lemma CopyMatches(p: JunkPattern, t: string, s: nat, e: nat, a: nat)
    requires s <= |t| && MatchAt(p, t, s) == Some(e)
    requires a < s && OccursAt(t[s..e], t, a)
    ensures MatchAt(p, t, a).Some?
  {
    match p
    case Bracketed(words) => BracketCopyMatches(words, t, s, e, a);
    case AlbumName(name) => AlbumCopyMatches(name, t, s, e, a);
    case ArtistName(name) => ArtistCopyMatches(name, t, s, e, a);
  }

  /** The captured text does not occur before the match: its leftmost occurrence is the match itself. */
  lemma JunkLeftmostOccurrence(p: JunkPattern, t: string)
    requires Search(p, t).Some?
    ensures var sp := Search(p, t).value;
      forall a: nat :: a < sp.start ==> !OccursAt(t[sp.start..sp.end], t, a)
  {
    var sp := Search(p, t).value;
    forall a: nat | a < sp.start ensures !OccursAt(t[sp.start..sp.end], t, a) {
      if OccursAt(t[sp.start..sp.end], t, a) {
        CopyMatches(p, t, sp.start, sp.end, a);
      }
    }
  }

  /**
   * A bracketed search hit starts at the leftmost opener from which a
   * keyword and then a closer can be reached, and spans from that opener to
   * the first closer after the keyword; there is no hit exactly when no
   * opener can reach one.
   */
  lemma BracketSearchShape(words: seq<Word>, t: string)
    ensures Search(Bracketed(words), t).None? <==> forall m :: 0 <= m <= |t| ==> !BracketMatchable(words, t, m)
    ensures Search(Bracketed(words), t).Some? ==>
      var sp := Search(Bracketed(words), t).value;
      sp.start < sp.end && IsOpener(t[sp.start]) && IsCloser(t[sp.end - 1]) &&
      (exists k: nat, i :: BracketWitness(words, t, sp.start, sp.end, k, i)) &&
      forall m :: 0 <= m < sp.start ==> !BracketMatchable(words, t, m)
  {
    var r := Search(Bracketed(words), t);
    forall m | 0 <= m <= |t| ensures MatchAt(Bracketed(words), t, m).None? <==> !BracketMatchable(words, t, m) {
      BracketMatchExact(words, t, m);
    }
    if r.Some? {
      BracketMatchShape(words, t, r.value.start, r.value.end);
    }
  }

  /** No `h` or `c` before the `[`: no quality keyword starts in "(feat. X) Song ". */
  lemma FeatNoHit(t: string, m: nat)
    requires t == "(feat. X) Song [HD]" && 1 <= m < 16
    ensures NoHitAt(YoutubeTitleJunk[1].keywords, t, m)
  {
    var words := YoutubeTitleJunk[1].keywords;
    assert t[m] != 'h' && t[m] != 'H' && t[m] != 'c' && t[m] != 'C';
    assert !AtomMatches(words[0][0], t[m]) && !AtomMatches(words[1][0], t[m]) && !AtomMatches(words[2][0], t[m]);
  }

  /** At the `H` of "[HD]" the second alternative hits and the first does not. */
  lemma FeatHit(t: string)
    requires t == "(feat. X) Song [HD]"
    ensures KeywordHit(YoutubeTitleJunk[1].keywords, t, 16, 1) && !KeywordHit(YoutubeTitleJunk[1].keywords, t, 16, 0)
  {
    var words := YoutubeTitleJunk[1].keywords;
    assert WordAt(words[1], t, 16);
    assert !AtomMatches(words[0][1], t[17]);
    assert FirstCloser(t, 18) == Some(18);
  }

  /**
   * The quality pattern's hit in "(feat. X) Song [HD]" starts at the
   * opening parenthesis of "(feat. X)" and ends at the closing bracket of
   * "[HD]": the whole title.
   */
  lemma FeatSongHdMatchesWhole(t: string)
    requires t == "(feat. X) Song [HD]"
    ensures Search(YoutubeTitleJunk[1], t) == Some(Span(0, |t|))
  {
    var words := YoutubeTitleJunk[1].keywords;
    forall m | 1 <= m < 16 ensures NoHitAt(words, t, m) {
      FeatNoHit(t, m);
    }
    FeatHit(t);
    assert DotRun(t, 1, 16);
    var r := FirstHitPos(words, t, 1);
    assert r == Some(16);
    assert FirstHitWord(words, t, 16, 0) == Some(1);
    assert FirstCloser(t, 18) == Some(18);
    assert BracketAt(words, t, 0) == Some(19);
  }
}
