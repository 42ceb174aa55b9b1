/**
 * The `fromyoutubetitle` import hook: for each imported item, fill an empty
 * title with the cleaned file name and, when enabled, an empty album or
 * artist with the directory names above the file.
 */
module YoutubeTitle {
  import opened Text
  import opened PathInference
  import opened JunkPatterns
  import opened Separators
  import opened TitleCleaner

  /** The fields of a library item the hook reads and writes; "" is an unset tag. */
  class Item {
    var path: Path
    var title: string
    var album: string
    var artist: string

    constructor (path: Path, title: string, album: string, artist: string)
      ensures this.path == path && this.title == title && this.album == album && this.artist == artist
    {
      this.path := path;
      this.title := title;
      this.album := album;
      this.artist := artist;
    }
  }

  /** The three tags of an item, as a value. */
  datatype Tags = Tags(title: string, album: string, artist: string)

  function TagsOf(item: Item): Tags
    reads item
  {
    Tags(item.title, item.album, item.artist)
  }

  class FromYoutubeTitlePlugin {
    /** `parent_is_album`: the parent directory names the album. */
    const inferAlbum: bool
    /** `parent_parent_is_artist`: the grandparent directory names the artist. */
    const inferArtist: bool

    constructor (parentIsAlbum: bool, parentParentIsArtist: bool)
      ensures inferAlbum == parentIsAlbum && inferArtist == parentParentIsArtist
    {
      inferAlbum := parentIsAlbum;
      inferArtist := parentParentIsArtist;
    }

    /** How many import-specific patterns come before the catalogue. */
    function SpecificCount(): nat {
      (if inferAlbum then 1 else 0) + (if inferArtist then 1 else 0)
    }

    /**
     * The patterns `get_clean_title` hands to `_replace_junk`: the album
     * pattern, then the artist pattern, each only when enabled, then the
     * whole catalogue in its own order.
     */
    function TitlePatterns(path: Path): (ps: seq<JunkPattern>)
      ensures |ps| == SpecificCount() + |YoutubeTitleJunk|
      ensures ps[SpecificCount()..] == YoutubeTitleJunk
      ensures inferAlbum ==> ps[0] == RemoveAlbumNamePattern(AlbumNameFromPath(path))
      ensures inferArtist ==> ps[SpecificCount() - 1] == RemoveArtistNamePattern(ArtistNameFromPath(path))
    {
      SpecificPatterns(path) + YoutubeTitleJunk
    }

    /** The patterns built for this import from the item's directories: album first, then artist. */
    function SpecificPatterns(path: Path): (ps: seq<JunkPattern>)
      ensures |ps| == SpecificCount()
      ensures forall q :: q in ps ==> !q.Bracketed?
      ensures inferAlbum ==> ps[0] == RemoveAlbumNamePattern(AlbumNameFromPath(path))
      ensures inferArtist ==> ps[|ps| - 1] == RemoveArtistNamePattern(ArtistNameFromPath(path))
    {
      (if inferAlbum then [RemoveAlbumNamePattern(AlbumNameFromPath(path))] else []) +
      (if inferArtist then [RemoveArtistNamePattern(ArtistNameFromPath(path))] else [])
    }

    /** The title `get_clean_title` computes for an item at this path. */
    function CleanTitleFor(path: Path): (r: string)
      ensures |r| <= |TrackTitleFromPath(path)|
    {
      CleanTitle(TrackTitleFromPath(path), TitlePatterns(path))
    }

    /** `_replace_junk`: the two loops of the cleaner, with `strip()` between them. */
    method ReplaceJunk(title: string, patterns: seq<JunkPattern>) returns (newTitle: string)
      ensures newTitle == CleanTitle(title, patterns)
    {
      newTitle := title;
      for i := 0 to |patterns|
        invariant ApplyPatterns(newTitle, patterns[i..]) == ApplyPatterns(title, patterns)
      {
        assert patterns[i..][1..] == patterns[i + 1..];
        match Search(patterns[i], newTitle)
        case Some(sp) =>
          newTitle := DeleteAll(newTitle, newTitle[sp.start..sp.end]);
        case None =>
      }
      assert patterns[|patterns|..] == [];
      newTitle := Strip(newTitle);
      ghost var stripped := newTitle;
      for i := 0 to |ExtraStripPatterns|
        invariant ApplySeparators(newTitle, ExtraStripPatterns[i..]) == StripSeparators(stripped)
      {
        assert ExtraStripPatterns[i..][1..] == ExtraStripPatterns[i + 1..];
        match SeparatorMatch(ExtraStripPatterns[i], newTitle)
        case Some(t) =>
          newTitle := t;
        case None =>
      }
      assert ExtraStripPatterns[|ExtraStripPatterns|..] == [];
    }

    /** `get_clean_title`: the file name cleaned with this import's patterns. */
    method GetCleanTitle(item: Item) returns (title: string)
      ensures title == CleanTitleFor(item.path)
    {
      var path := item.path;
      var rawTitle := TrackTitleFromPath(path);
      var specificJunkPatterns: seq<JunkPattern> := [];
      if inferAlbum {
        var albumName := AlbumNameFromPath(path);
        specificJunkPatterns := specificJunkPatterns + [RemoveAlbumNamePattern(albumName)];
      }
      if inferArtist {
        var artistName := ArtistNameFromPath(path);
        specificJunkPatterns := specificJunkPatterns + [RemoveArtistNamePattern(artistName)];
      }
      assert specificJunkPatterns == SpecificPatterns(path);
      title := ReplaceJunk(rawTitle, specificJunkPatterns + YoutubeTitleJunk);
    }

    /** `get_album`: the raw parent directory name, never cleaned. */
    function GetAlbum(item: Item): (r: string)
      reads item
      ensures r == if |item.path.parts| >= 2 then item.path.parts[|item.path.parts| - 2] else ""
    {
      AlbumNameFromPath(item.path)
    }

    /** `get_artist`: the raw grandparent directory name, never cleaned. */
    function GetArtist(item: Item): (r: string)
      reads item
      ensures r == if |item.path.parts| >= 3 then item.path.parts[|item.path.parts| - 3] else ""
    {
      ArtistNameFromPath(item.path)
    }

    /**
     * The tags of an item at this path after one pass of the hook's loop: a
     * tag changes only when it is empty and, for album and artist, its
     * option is on; a tag that is set is never overwritten.
     */
    function Filled(tags: Tags, path: Path): (r: Tags)
      ensures r.title != tags.title ==> tags.title == ""
      ensures r.album != tags.album ==> inferAlbum && tags.album == ""
      ensures r.artist != tags.artist ==> inferArtist && tags.artist == ""
      ensures tags.title == "" ==> r.title == CleanTitleFor(path)
      ensures inferAlbum && tags.album == "" ==> r.album == (if |path.parts| >= 2 then path.parts[|path.parts| - 2] else "")
      ensures inferArtist && tags.artist == "" ==> r.artist == (if |path.parts| >= 3 then path.parts[|path.parts| - 3] else "")
    {
      Tags(
        if tags.title == "" then CleanTitleFor(path) else tags.title,
        if inferAlbum && tags.album == "" then AlbumNameFromPath(path) else tags.album,
        if inferArtist && tags.artist == "" then ArtistNameFromPath(path) else tags.artist)
    }

    /** A second pass over the same item changes nothing. */
    lemma FilledIdempotent(tags: Tags, path: Path)
      ensures Filled(Filled(tags, path), path) == Filled(tags, path)
    {
    }

    /**
     * `clean_youtube_metadata` over the items of one import task: every
     * item ends with its tags filled once, even when it is listed twice,
     * and its path is left alone.
     */
    method CleanYoutubeMetadata(items: seq<Item>)
      modifies items
      ensures forall it :: it in items ==> it.path == old(it.path)
      ensures forall it :: it in items ==> TagsOf(it) == Filled(old(TagsOf(it)), it.path)
    {
      for i := 0 to |items|
        invariant forall it :: it in items ==> it.path == old(it.path)
        invariant forall it :: it in items[..i] ==> TagsOf(it) == Filled(old(TagsOf(it)), it.path)
        invariant forall it :: it in items && it !in items[..i] ==> TagsOf(it) == old(TagsOf(it))
      {
        var item := items[i];
        CleanItem(item);
        FilledIdempotent(old(TagsOf(item)), item.path);
        assert items[..i + 1] == items[..i] + [item];
      }
      assert items[..|items|] == items;
    }

    /** One pass of the loop body of `clean_youtube_metadata`. */
    method CleanItem(item: Item)
      modifies item
      ensures item.path == old(item.path)
      ensures TagsOf(item) == Filled(old(TagsOf(item)), item.path)
    {
      if item.title == "" {
        var title := GetCleanTitle(item);
        item.title := title;
      }
      if inferAlbum && item.album == "" {
        item.album := GetAlbum(item);
      }
      if inferArtist && item.artist == "" {
        item.artist := GetArtist(item);
      }
    }
  }
}
