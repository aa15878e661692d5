/** The result list side of `src/ui/search.rs`: starting a search, assembling its items from
    the three Deezer searches by the filter index, and the rules by which finished searches
    and browsing append to or replace the list. The searches themselves are parameters. */
module Search {
  import opened Wrappers
  import opened Text
  import opened Models
  import opened ResultRows
  import opened AppState

  /** The three searches the filter chooses from. */
  datatype Source = Albums | Artists | Tracks

  /** The filter index that asks only for a source (0, "All", asks for every source). */
  function FilterIndex(s: Source): nat
  {
    match s
    case Albums => 1
    case Artists => 2
    case Tracks => 3
  }

  predicate Asks(selected: nat, s: Source) { selected == 0 || selected == FilterIndex(s) }

  /** The searches a filter index runs, in the order they run. */
  function Queried(selected: nat): (qs: seq<Source>)
    ensures |qs| <= 3
  {
    (if Asks(selected, Albums) then [Albums] else [])
    + (if Asks(selected, Artists) then [Artists] else [])
    + (if Asks(selected, Tracks) then [Tracks] else [])
  }

  /** A source runs exactly when the index is 0 or its own; every index runs the sources in
      the same order, and an index past the drop-down's last entry runs none. */
  lemma QueriedByFilter(selected: nat)
    ensures forall s :: s in Queried(selected) <==> Asks(selected, s)
    ensures selected == 0 ==> Queried(selected) == [Albums, Artists, Tracks]
    ensures 1 <= selected <= 3 ==> |Queried(selected)| == 1
    ensures selected > 3 ==> Queried(selected) == []
  {
    forall s
      ensures s in Queried(selected) <==> Asks(selected, s)
    {
      match s
      case Albums =>
      case Artists =>
      case Tracks =>
    }
  }

  /** At most `n` of the items, from the front. */
  function Take<T>(xs: seq<T>, n: nat): (r: seq<T>)
    ensures |r| <= n && r <= xs
    ensures |r| == if |xs| < n then |xs| else n
  {
    if |xs| <= n then xs else xs[..n]
  }

  function AlbumItems(albums: seq<Album>): (items: seq<ResultItem>)
    ensures |items| == |albums| && forall k :: 0 <= k < |albums| ==> items[k] == AlbumResult(albums[k])
  {
    seq(|albums|, k requires 0 <= k < |albums| => AlbumResult(albums[k]))
  }

  function ArtistItems(artists: seq<Artist>): (items: seq<ResultItem>)
    ensures |items| == |artists| && forall k :: 0 <= k < |artists| ==> items[k] == ArtistResult(artists[k])
  {
    seq(|artists|, k requires 0 <= k < |artists| => ArtistResult(artists[k]))
  }

  function TrackItems(tracks: seq<Track>): (items: seq<ResultItem>)
    ensures |items| == |tracks| && forall k :: 0 <= k < |tracks| ==> items[k] == TrackResult(tracks[k])
  {
    seq(|tracks|, k requires 0 <= k < |tracks| => TrackResult(tracks[k]))
  }

  /** What one source adds: nothing unless the filter asks for it and it answers. */
  function Part<T>(asked: bool, answer: Result<seq<T>>, limit: nat): seq<T>
  {
    if asked && answer.Ok? then Take(answer.value, limit) else []
  }

  /** The items of a search: up to ten albums, then up to five artists, then every track. */
  function Assembled(selected: nat, albums: Result<seq<Album>>, artists: Result<seq<Artist>>,
                     tracks: Result<seq<Track>>): seq<ResultItem>
  {
    AlbumItems(Part(Asks(selected, Albums), albums, 10))
    + ArtistItems(Part(Asks(selected, Artists), artists, 5))
    + TrackItems(if Asks(selected, Tracks) && tracks.Ok? then tracks.value else [])
  }

  /** What a search reports: its items, or "no results" when it has none. */
  function Outcome(items: seq<ResultItem>): (r: Result<seq<ResultItem>>)
    ensures r.Err? <==> items == []
    ensures r.Ok? ==> r.value == items
    ensures r.Err? ==> r.error == "no results"
  {
    if items == [] then Err("no results") else Ok(items)
  }

  /** The background part of `search`: runs the searches the filter asks for, in order, and
      collects what answers. */
  method Assemble(selected: nat, query: string,
                  searchAlbums: string -> Result<seq<Album>>,
                  searchArtists: string -> Result<seq<Artist>>,
                  searchTracks: string -> Result<seq<Track>>)
    returns (r: Result<seq<ResultItem>>, asked: seq<Source>)
    ensures asked == Queried(selected)
    ensures r == Outcome(Assembled(selected, searchAlbums(query), searchArtists(query), searchTracks(query)))
  {
    var items: seq<ResultItem> := [];
    asked := [];
    if selected == 0 || selected == 1 {
      asked := asked + [Albums];
      var albums := searchAlbums(query);
      if albums.Ok? {
        items := items + AlbumItems(Take(albums.value, 10));
      }
    }
    ghost var a := AlbumItems(Part(Asks(selected, Albums), searchAlbums(query), 10));
    assert items == a;
    if selected == 0 || selected == 2 {
      asked := asked + [Artists];
      var artists := searchArtists(query);
      if artists.Ok? {
        items := items + ArtistItems(Take(artists.value, 5));
      }
    }
    ghost var b := ArtistItems(Part(Asks(selected, Artists), searchArtists(query), 5));
    assert items == a + b;
    if selected == 0 || selected == 3 {
      asked := asked + [Tracks];
      var tracks := searchTracks(query);
      if tracks.Ok? {
        items := items + TrackItems(tracks.value);
      }
    }
    assert items == Assembled(selected, searchAlbums(query), searchArtists(query), searchTracks(query));
    r := if items == [] then Err("no results") else Ok(items);
  }

  /** The layout of the items: the albums first, in order and at most ten, then the artists,
      at most five, then every track; a source the filter skips or that fails adds nothing. */
  lemma AssembledLayout(selected: nat, albums: Result<seq<Album>>, artists: Result<seq<Artist>>,
                        tracks: Result<seq<Track>>)
    ensures var items := Assembled(selected, albums, artists, tracks);
            var a := Part(Asks(selected, Albums), albums, 10);
            var b := Part(Asks(selected, Artists), artists, 5);
            var t := if Asks(selected, Tracks) && tracks.Ok? then tracks.value else [];
            && |a| <= 10 && |b| <= 5
            && (Asks(selected, Albums) && albums.Ok? ==> a <= albums.value)
            && (Asks(selected, Artists) && artists.Ok? ==> b <= artists.value)
            && |items| == |a| + |b| + |t|
            && (forall k :: 0 <= k < |a| ==> items[k] == AlbumResult(a[k]))
            && (forall k :: 0 <= k < |b| ==> items[|a| + k] == ArtistResult(b[k]))
            && (forall k :: 0 <= k < |t| ==> items[|a| + |b| + k] == TrackResult(t[k]))
  {
    var a := Part(Asks(selected, Albums), albums, 10);
    var b := Part(Asks(selected, Artists), artists, 5);
  }

  /** A failing search counts as an empty answer: it never fails the others. */
  lemma FailureContributesNothing(selected: nat, albums: Result<seq<Album>>, artists: Result<seq<Artist>>,
                                  tracks: Result<seq<Track>>, e: string)
    ensures Assembled(selected, Err(e), artists, tracks) == Assembled(selected, Ok([]), artists, tracks)
    ensures Assembled(selected, albums, Err(e), tracks) == Assembled(selected, albums, Ok([]), tracks)
    ensures Assembled(selected, albums, artists, Err(e)) == Assembled(selected, albums, artists, Ok([]))
  {
  }

  /** A filter skips a source whatever it would answer. */
  lemma SkippedSourceIgnored(selected: nat, albums: Result<seq<Album>>, albums': Result<seq<Album>>,
                             artists: Result<seq<Artist>>, tracks: Result<seq<Track>>)
    requires !Asks(selected, Albums)
    ensures Assembled(selected, albums, artists, tracks) == Assembled(selected, albums', artists, tracks)
  {
  }

  // ---------------------------------------------------------------- the result list

  /** What the rows stand for, in list order. */
  function Items(rs: seq<ResultRow>): (items: seq<ResultItem>)
    ensures |items| == |rs| && forall k :: 0 <= k < |rs| ==> items[k] == rs[k].item
  {
    seq(|rs|, k requires 0 <= k < |rs| => rs[k].item)
  }

  /** `search`: the list empties while the searches run, and the filter index is handed to
      them. */
  method StartSearch(app: App, query: string) returns (selected: nat)
    modifies app
    ensures app.searching && app.busy && app.status == "searching \"" + query + "\""
    ensures app.results == [] && selected == app.filter
    ensures app.downloads == old(app.downloads) && app.dlDir == old(app.dlDir) && app.filter == old(app.filter)
    ensures app.logs == old(app.logs) && app.nextDlId == old(app.nextDlId) && app.eta == old(app.eta)
    ensures app.dlStarted == old(app.dlStarted) && app.dlTotal == old(app.dlTotal) && app.dlDone == old(app.dlDone)
  {
    app.searching := true;
    app.busy := true;
    app.status := "searching \"" + query + "\"";
    app.results := [];
    selected := app.filter;
  }

  /** Pushes one new, unselected row per item to the back of the list. */
  method AppendRows(app: App, items: seq<ResultItem>)
    modifies app`results
    ensures Items(app.results) == Items(old(app.results)) + items
    ensures app.results[..|old(app.results)|] == old(app.results)
    ensures forall k :: |old(app.results)| <= k < |app.results| ==> fresh(app.results[k]) && !app.results[k].selected
  {
    var n := |app.results|;
    var i := 0;
    while i < |items|
      invariant 0 <= i <= |items|
      invariant |app.results| == n + i && app.results[..n] == old(app.results)
      invariant forall k :: 0 <= k < i ==> app.results[n + k].item == items[k]
      invariant forall k :: n <= k < |app.results| ==> fresh(app.results[k]) && !app.results[k].selected
    {
      var row := new ResultRow(items[i]);
      app.results := app.results + [row];
      i := i + 1;
    }
    assert Items(app.results) == Items(old(app.results)) + items;
  }

  /** `search_done`: the search is over, and its items follow whatever the list holds. */
  method SearchDone(app: App, items: seq<ResultItem>)
    modifies app
    ensures !app.searching && !app.busy && app.status == NatToString(|items|) + " results"
    ensures Items(app.results) == Items(old(app.results)) + items
    ensures app.results[..|old(app.results)|] == old(app.results)
    ensures forall k :: |old(app.results)| <= k < |app.results| ==> fresh(app.results[k]) && !app.results[k].selected
    ensures app.downloads == old(app.downloads) && app.dlDir == old(app.dlDir) && app.filter == old(app.filter)
    ensures app.logs == old(app.logs) && app.nextDlId == old(app.nextDlId) && app.eta == old(app.eta)
    ensures app.dlStarted == old(app.dlStarted) && app.dlTotal == old(app.dlTotal) && app.dlDone == old(app.dlDone)
  {
    app.searching := false;
    app.busy := false;
    app.status := NatToString(|items|) + " results";
    AppendRows(app, items);
  }

  /** Browsing starts: the application is busy loading the named artist or album. */
  method Loading(app: App, name: string)
    modifies app
    ensures app.busy && app.status == "loading \"" + name + "\""
    ensures app.results == old(app.results) && app.searching == old(app.searching)
    ensures app.downloads == old(app.downloads) && app.dlDir == old(app.dlDir) && app.filter == old(app.filter)
    ensures app.logs == old(app.logs) && app.nextDlId == old(app.nextDlId) && app.eta == old(app.eta)
    ensures app.dlStarted == old(app.dlStarted) && app.dlTotal == old(app.dlTotal) && app.dlDone == old(app.dlDone)
  {
    app.busy := true;
    app.status := "loading \"" + name + "\"";
  }

  /** `browse_artist`. */
  method BrowseArtist(app: App, artist: Artist)
    modifies app
    ensures app.busy && app.status == "loading \"" + artist.name + "\""
    ensures app.results == old(app.results) && app.searching == old(app.searching)
    ensures app.downloads == old(app.downloads) && app.dlDir == old(app.dlDir) && app.filter == old(app.filter)
    ensures app.logs == old(app.logs) && app.nextDlId == old(app.nextDlId) && app.eta == old(app.eta)
    ensures app.dlStarted == old(app.dlStarted) && app.dlTotal == old(app.dlTotal) && app.dlDone == old(app.dlDone)
  {
    Loading(app, artist.name);
  }

  /** `browse_album`. */
  method BrowseAlbum(app: App, album: Album)
    modifies app
    ensures app.busy && app.status == "loading \"" + album.title + "\""
    ensures app.results == old(app.results) && app.searching == old(app.searching)
    ensures app.downloads == old(app.downloads) && app.dlDir == old(app.dlDir) && app.filter == old(app.filter)
    ensures app.logs == old(app.logs) && app.nextDlId == old(app.nextDlId) && app.eta == old(app.eta)
    ensures app.dlStarted == old(app.dlStarted) && app.dlTotal == old(app.dlTotal) && app.dlDone == old(app.dlDone)
  {
    Loading(app, album.title);
  }

  /** `artist_albums`: the list becomes the artist's albums, in order. */
  method ArtistAlbums(app: App, albums: seq<Album>)
    modifies app
    ensures !app.busy && app.status == NatToString(|albums|) + " albums"
    ensures Items(app.results) == AlbumItems(albums)
    ensures forall k :: 0 <= k < |app.results| ==> fresh(app.results[k]) && !app.results[k].selected
    ensures app.searching == old(app.searching) && app.downloads == old(app.downloads) && app.logs == old(app.logs)
    ensures app.dlDir == old(app.dlDir) && app.filter == old(app.filter) && app.eta == old(app.eta)
    ensures app.nextDlId == old(app.nextDlId) && app.dlStarted == old(app.dlStarted)
    ensures app.dlTotal == old(app.dlTotal) && app.dlDone == old(app.dlDone)
  {
    app.busy := false;
    app.status := NatToString(|albums|) + " albums";
    app.results := [];
    AppendRows(app, AlbumItems(albums));
  }

  /** `album_tracks`: the list becomes the album's tracks, in order. */
  method AlbumTracks(app: App, tracks: seq<Track>)
    modifies app
    ensures !app.busy && app.status == NatToString(|tracks|) + " tracks"
    ensures Items(app.results) == TrackItems(tracks)
    ensures forall k :: 0 <= k < |app.results| ==> fresh(app.results[k]) && !app.results[k].selected
    ensures app.searching == old(app.searching) && app.downloads == old(app.downloads) && app.logs == old(app.logs)
    ensures app.dlDir == old(app.dlDir) && app.filter == old(app.filter) && app.eta == old(app.eta)
    ensures app.nextDlId == old(app.nextDlId) && app.dlStarted == old(app.dlStarted)
    ensures app.dlTotal == old(app.dlTotal) && app.dlDone == old(app.dlDone)
  {
    app.busy := false;
    app.status := NatToString(|tracks|) + " tracks";
    app.results := [];
    AppendRows(app, TrackItems(tracks));
  }
}
