/** The catalogue records of `src/models`: a `Track` to download, the download status of a
    track, albums and artists, and the Deezer wire records they are built from. */
module Models {
  import opened Wrappers
  import opened Text

  type u32 = x: int | 0 <= x < 0x1_0000_0000
  type u64 = x: int | 0 <= x <= U64_MAX

  /** One track to acquire. `duration` is in seconds; `coverUrl` is empty when there is no
      cover; `isAlbumTrack` selects the album sub-folder on download. */
  datatype Track = Track(
    title: string,
    artist: string,
    album: string,
    duration: real,
    trackPos: Option<u32>,
    coverUrl: string,
    isAlbumTrack: bool)

  /** The status of one download row. */
  datatype DlStatus = Queued | Active(pct: real) | Done | Failed(msg: string)

  datatype Album = Album(id: u64, title: string, artist: string, coverUrl: string, nbTracks: u32)

  datatype Artist = Artist(id: u64, name: string, nbAlbum: u32)

  // Deezer's JSON records; a field absent from the JSON takes its default.
  datatype DzArtistRef = DzArtistRef(name: string)
  datatype DzAlbumRef = DzAlbumRef(title: string, coverXl: string)
  datatype DzTrack = DzTrack(
    title: string,
    duration: real,
    trackPosition: Option<u32>,
    artist: Option<DzArtistRef>,
    album: Option<DzAlbumRef>)
  datatype DzAlbum = DzAlbum(id: u64, title: string, nbTracks: u32, coverXl: string, artist: Option<DzArtistRef>)
  datatype DzArtist = DzArtist(id: u64, name: string, nbAlbum: u32)

  /** `Track::duration_fmt`: whole minutes, a colon, and the seconds left over padded to two
      digits. The duration is truncated to whole seconds first (a saturating cast). */
  function DurationFmt(t: Track): (r: string)
    ensures ':' in r
  {
    var secs := SaturatingU64(t.duration);
    NatToString(secs / 60) + ":" + Pad2(secs % 60)
  }

  /** Reading the text back: the minutes before the colon and the two-digit seconds after it
      give the truncated duration again. */
  lemma DurationFmtReadsBack(t: Track)
    ensures var r := DurationFmt(t);
            var i := IndexOf(r, ':');
            && i < |r| && |r[i + 1..]| == 2
            && AllDigits(r[..i]) && AllDigits(r[i + 1..])
            && ParseDigits(r[..i]) * 60 + ParseDigits(r[i + 1..]) == SaturatingU64(t.duration)
  {
    var secs := SaturatingU64(t.duration);
    var m, s := NatToString(secs / 60), Pad2(secs % 60);
    var r := m + ":" + s;
    assert forall j :: 0 <= j < |m| ==> r[j] == m[j] && IsDigit(m[j]);
    assert r[|m|] == ':';
    assert IndexOf(r, ':') == |m|;
    assert r[..|m|] == m && r[|m| + 1..] == s;
    ParseNatToString(secs / 60);
    Pad2Value(secs % 60);
  }

  lemma DurationFmtExample()
    ensures DurationFmt(Track("t", "a", "b", 185.0, None, "", false)) == "3:05"
  {
    assert SaturatingU64(185.0) == 185;
    assert NatToString(3) == "3";
    assert Pad2(5) == "05";
  }

  /** `Track::from_dz`: a track from a Deezer track record, with the album title and cover of
      the enclosing album as fallbacks. */
  function FromDz(dt: DzTrack, albumFallback: string, coverFallback: string): (t: Track)
    // the album's `cover_xl` wins when the record names an album with a non-empty cover
    ensures dt.album.Some? && dt.album.value.coverXl != [] ==> t.coverUrl == dt.album.value.coverXl
    ensures dt.album.None? || dt.album.value.coverXl == [] ==> t.coverUrl == coverFallback
    // the album's title wins whenever the record names an album, even an empty title
    ensures t.album == if dt.album.Some? then dt.album.value.title else albumFallback
    ensures t.artist == if dt.artist.Some? then dt.artist.value.name else ""
    ensures t.title == dt.title && t.duration == dt.duration && t.trackPos == dt.trackPosition
    ensures !t.isAlbumTrack
  {
    var cover := match dt.album
      case Some(a) => if a.coverXl != "" then a.coverXl else coverFallback
      case None => coverFallback;
    Track(
      dt.title,
      match dt.artist case Some(a) => a.name case None => "",
      match dt.album case Some(a) => a.title case None => albumFallback,
      dt.duration,
      dt.trackPosition,
      cover,
      false)
  }

  /** `Track::yt_query`: "artist - title". */
  function YtQuery(t: Track): (q: string)
    ensures |q| == |t.artist| + 3 + |t.title|
    ensures StartsWith(q, t.artist) && EndsWith(q, t.title)
    ensures q[|t.artist|..|q| - |t.title|] == " - "
  {
    t.artist + " - " + t.title
  }

  /** `Album::from_dz`: the artist's name, or "" when the record has no artist. */
  function AlbumFromDz(da: DzAlbum): (a: Album)
    ensures a.artist == if da.artist.Some? then da.artist.value.name else ""
    ensures a.id == da.id && a.title == da.title && a.coverUrl == da.coverXl && a.nbTracks == da.nbTracks
  {
    Album(da.id, da.title, match da.artist case Some(x) => x.name case None => "", da.coverXl, da.nbTracks)
  }

  /** `Artist::from_dz`: a field-by-field copy. */
  function ArtistFromDz(da: DzArtist): Artist
  {
    Artist(da.id, da.name, da.nbAlbum)
  }
}
