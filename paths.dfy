/**
 * Path inference: a track's title, album and artist read off the
 * Artist/Album/Track.ext layout of its file path.
 */
module PathInference {
  import opened Wrappers

  /**
   * A file path as its components after the anchor (the root or drive,
   * which never contributes a name): `/music/Artist/Album/01 Song.mp3`
   * is `Path(["music", "Artist", "Album", "01 Song.mp3"])`.
   */
  datatype Path = Path(parts: seq<string>)

  /** `PurePath.name`: the last component, or "" when there is none. */
  function Name(p: Path): (r: string)
    ensures p.parts != [] ==> p.parts == Parent(p).parts + [r]
    ensures p.parts == [] ==> r == ""
  {
    if p.parts == [] then "" else p.parts[|p.parts| - 1]
  }

  /** `PurePath.parent`: the path without its last component; a path without components is its own parent. */
  function Parent(p: Path): (r: Path)
    ensures |r.parts| == if p.parts == [] then 0 else |p.parts| - 1
    ensures r.parts == if p.parts == [] then [] else p.parts[..|p.parts| - 1]
  {
    if p.parts == [] then p else Path(p.parts[..|p.parts| - 1])
  }

  /** `str.rfind(c)`: the index of the last c in s. */
  function RFind(s: string, c: char): (r: Option<nat>)
    ensures r.Some? ==> r.value < |s| && s[r.value] == c && forall j :: r.value < j < |s| ==> s[j] != c
    ensures r.None? ==> forall j :: 0 <= j < |s| ==> s[j] != c
  {
    if s == [] then None
    else if s[|s| - 1] == c then Some(|s| - 1)
    else RFind(s[..|s| - 1], c)
  }

  /**
   * `PurePath.stem`: the name without its last suffix. A dot counts only when
   * it is neither the first nor the last character of the name.
   */
  function Stem(name: string): (r: string)
    ensures |r| <= |name| && r == name[..|r|]
  {
    match RFind(name, '.')
    case Some(i) => if 0 < i < |name| - 1 then name[..i] else name
    case None => name
  }

  /** `track_title_from_path`: the file name without its last extension. */
  function TrackTitleFromPath(p: Path): (r: string)
    ensures |r| <= |Name(p)| && r == Name(p)[..|r|]
    ensures '.' !in Name(p) ==> r == Name(p)
  {
    Stem(Name(p))
  }

  /** `album_name_from_path`: the name of the parent directory, "" when there is none. */
  function AlbumNameFromPath(p: Path): (r: string)
    ensures r == if |p.parts| >= 2 then p.parts[|p.parts| - 2] else ""
  {
    Name(Parent(p))
  }

  /** `artist_name_from_path`: the name of the grandparent directory, "" when there is none. */
  function ArtistNameFromPath(p: Path): (r: string)
    ensures r == if |p.parts| >= 3 then p.parts[|p.parts| - 3] else ""
  {
    Name(Parent(Parent(p)))
  }

  /** Only the last extension is dropped: `a.b.mp3` has stem `a.b`. */
  lemma {:induction false} StemDropsLastExtension(base: string, ext: string)
    requires base != [] && ext != [] && '.' !in ext
    ensures Stem(base + "." + ext) == base
  {
    var name := base + "." + ext;
    var i := |base|;
    assert name[i] == '.';
    assert forall j :: i < j < |name| ==> name[j] == ext[j - i - 1];
    assert RFind(name, '.') == Some(i);
    assert name[..i] == base;
  }

  /** A name without a dot is its own stem. */
  lemma StemWithoutDot(name: string)
    requires '.' !in name
    ensures Stem(name) == name
  {
  }

  /** For `.../Artist/Album/Track.ext` the three inferences give Track, Album and Artist. */
  lemma PathInferenceOfLayout(dirs: seq<string>, artist: string, album: string, track: string, ext: string)
    requires track != [] && ext != [] && '.' !in ext
    ensures var p := Path(dirs + [artist, album, track + "." + ext]);
      TrackTitleFromPath(p) == track && AlbumNameFromPath(p) == album && ArtistNameFromPath(p) == artist
  {
    StemDropsLastExtension(track, ext);
  }
}
