/** One row of the result list (`src/ui/result_row.rs`): what it shows, whether it can be
    picked for download, and what browsing it opens. */
module ResultRows {
  import opened Wrappers
  import opened Text
  import opened Models
  import opened SpotifyTypes

  /** What a result row stands for. */
  datatype ResultItem =
    | ArtistResult(artist: Artist)
    | AlbumResult(album: Album)
    | TrackResult(track: Track)
    | SpotifyPlaylist(playlist: Playlist)
    | SpotifyLiked

  /** What browsing a row asks the application to open. */
  datatype ResultRowOutput =
    | OpenAlbum(album: Album)
    | OpenArtist(artist: Artist)
    | OpenSpotifyPlaylist(id: string, name: string)
    | OpenSpotifyLiked

  /** Albums and tracks can be picked for download; the checkbox shows only for them. */
  predicate Selectable(item: ResultItem) { item.AlbumResult? || item.TrackResult? }

  /** The selection after a toggle. */
  function Toggled(item: ResultItem, selected: bool): (s: bool)
    ensures s != selected <==> Selectable(item)
  {
    if Selectable(item) then !selected else selected
  }

  /** What browsing the row opens, if anything. */
  function BrowseOutput(item: ResultItem): Option<ResultRowOutput>
  {
    match item
    case AlbumResult(a) => Some(OpenAlbum(a))
    case ArtistResult(a) => Some(OpenArtist(a))
    case SpotifyPlaylist(p) => Some(OpenSpotifyPlaylist(p.id, p.name))
    case SpotifyLiked => Some(OpenSpotifyLiked)
    case TrackResult(_) => None
  }

  /** The browse button shows for albums, artists, playlists and the liked songs. */
  predicate BrowseVisible(item: ResultItem)
  {
    item.AlbumResult? || item.ArtistResult? || item.SpotifyPlaylist? || item.SpotifyLiked?
  }

  /** The heading of the row: a track with a position is numbered. */
  function TitleLabel(item: ResultItem): string
  {
    match item
    case ArtistResult(a) => a.name
    case AlbumResult(a) => a.title
    case TrackResult(t) => if t.trackPos.Some? then NatToString(t.trackPos.value) + ". " + t.title else t.title
    case SpotifyPlaylist(p) => p.name
    case SpotifyLiked => "Liked Songs"
  }

  /** A row of the list: its item never changes; its selection does. */
  class ResultRow {
    const item: ResultItem
    var selected: bool

    /** `init_model`: a new row starts unselected. */
    constructor (item: ResultItem)
      ensures this.item == item && !selected
    {
      this.item := item;
      selected := false;
    }

    /** `Toggle`: flips the selection of an album or a track row; other rows ignore it. */
    method Toggle()
      modifies this
      ensures selected == Toggled(item, old(selected))
    {
      if Selectable(item) {
        selected := !selected;
      }
    }

    /** `Browse`: what the row sends to the application, if anything. */
    method Browse() returns (out: Option<ResultRowOutput>)
      ensures out == BrowseOutput(item)
    {
      out := BrowseOutput(item);
    }
  }

  /** Toggling twice gives back the selection. */
  lemma ToggleTwice(item: ResultItem, selected: bool)
    ensures Toggled(item, Toggled(item, selected)) == selected
  {
  }

  /** The browse button shows exactly for the rows whose browsing opens something, and what
      it opens carries the row's own record (a playlist passes its id and name on). */
  lemma BrowseButtonMatches(item: ResultItem)
    ensures BrowseVisible(item) <==> BrowseOutput(item).Some?
    ensures item.AlbumResult? <==> BrowseOutput(item).Some? && BrowseOutput(item).value.OpenAlbum?
    ensures item.AlbumResult? ==> BrowseOutput(item) == Some(OpenAlbum(item.album))
    ensures item.ArtistResult? <==> BrowseOutput(item).Some? && BrowseOutput(item).value.OpenArtist?
    ensures item.ArtistResult? ==> BrowseOutput(item) == Some(OpenArtist(item.artist))
    ensures item.SpotifyPlaylist? ==> BrowseOutput(item) == Some(OpenSpotifyPlaylist(item.playlist.id, item.playlist.name))
  {
  }

  /** Two rows of different kinds, or of different albums or artists, never open the same
      thing. */
  lemma BrowseInjective(a: ResultItem, b: ResultItem)
    requires BrowseOutput(a).Some? && BrowseOutput(a) == BrowseOutput(b)
    ensures !a.SpotifyPlaylist? ==> a == b
    ensures a.SpotifyPlaylist? ==> b.SpotifyPlaylist? && a.playlist.id == b.playlist.id && a.playlist.name == b.playlist.name
  {
  }

  /** A numbered track heading reads back: the digits before ". " are the position, and the
      title follows. */
  lemma {:induction false} TrackTitleReadsBack(t: Track)
    requires t.trackPos.Some?
    ensures var l := TitleLabel(TrackResult(t));
            var i := IndexOf(l, '.');
            && i < |l| && AllDigits(l[..i]) && ParseDigits(l[..i]) == t.trackPos.value
            && l[i..] == ". " + t.title
  {
    var n := NatToString(t.trackPos.value);
    var l := n + ". " + t.title;
    assert TitleLabel(TrackResult(t)) == l;
    assert forall j :: 0 <= j < |n| ==> l[j] == n[j] && IsDigit(n[j]);
    assert l[|n|] == '.';
    assert IndexOf(l, '.') == |n|;
    assert l[..|n|] == n;
    assert l[|n|..] == ". " + t.title;
    ParseNatToString(t.trackPos.value);
  }
}
