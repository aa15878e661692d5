/** The Spotify Web API listings of `src/backend/spotify/api.rs`: the mapping of a raw track
    to a `Track`, and the three loops that follow `next` links and collect every page. The
    HTTP client is a parameter: `net` gives what the API answers for a URL with the session's
    bearer token. */
module SpotifyApi {
  import opened Wrappers
  import opened Models
  import opened Http
  import opened SpotifyTypes
  import opened Seqs

  const API: string := "https://api.spotify.com/v1"

  /** `track_from_raw`: the first artist, the album's name and first image, the duration in
      seconds. */
  function TrackFromRaw(raw: RawTrack): (t: Track)
    ensures t.artist == if raw.artists == [] then "" else raw.artists[0].name
    ensures t.album == if raw.album.Some? then raw.album.value.name else ""
    ensures t.coverUrl == if raw.album.Some? && raw.album.value.images != [] then raw.album.value.images[0].url else ""
    ensures t.title == raw.name && t.trackPos == raw.trackNumber && !t.isAlbumTrack
    ensures t.duration * 1000.0 == raw.durationMs
  {
    Track(
      raw.name,
      if raw.artists == [] then "" else raw.artists[0].name,
      match raw.album case Some(a) => a.name case None => "",
      raw.durationMs / 1000.0,
      raw.trackNumber,
      match raw.album
        case Some(a) => if a.images == [] then "" else a.images[0].url
        case None => "",
      false)
  }

  // ---------------------------------------------------------------- pagination

  /** The chain of pages from `url` ends within `fuel` further `next` links: some page fails
      or has no `next`. */
  predicate ChainEnds<R>(net: string -> HttpOutcome<Page<R>>, url: string, fuel: nat)
    decreases fuel
  {
    match net(url)
    case Body(p) => p.next.None? || (fuel > 0 && ChainEnds(net, p.next.value, fuel - 1))
    case RequestFailed(_) => true
    case DecodeFailed(_) => true
  }

  /** What collecting from `url` on gives: the kept items of every page in page order, or the
      first page's error. */
  function Collect<R, T>(net: string -> HttpOutcome<Page<R>>, url: string, f: R -> Option<T>, fuel: nat): Result<seq<T>>
    requires ChainEnds(net, url, fuel)
    decreases fuel
  {
    match Fetch(net(url), "")
    case Err(e) => Err(e)
    case Ok(p) =>
      if p.next.None? then Ok(FilterMap(p.items, f))
      else Prepend(FilterMap(p.items, f), Collect(net, p.next.value, f, fuel - 1))
  }

  /** `xs` in front of a result's items; an error stays the same error. */
  function Prepend<T>(xs: seq<T>, r: Result<seq<T>>): Result<seq<T>>
  {
    match r
    case Ok(ys) => Ok(xs + ys)
    case Err(e) => Err(e)
  }

  /** The loop of `playlists`, `playlist_tracks` and `liked_tracks`: fetch the page at `url`,
      keep its items, follow `next` until there is none. The first failing page ends the loop
      with its error and nothing gathered so far is returned. `fuel` bounds the chain's length. */
  method CollectPages<R, T>(net: string -> HttpOutcome<Page<R>>, first: string, f: R -> Option<T>, ghost fuel: nat)
    returns (r: Result<seq<T>>)
    requires ChainEnds(net, first, fuel)
    ensures r == Collect(net, first, f, fuel)
  {
    var all: seq<T> := [];
    var url := first;
    ghost var k := fuel;
    assert Prepend(all, Collect(net, url, f, k)) == Collect(net, url, f, k) by {
      if Collect(net, url, f, k).Ok? { assert all + Collect(net, url, f, k).value == Collect(net, url, f, k).value; }
    }
    while true
      invariant ChainEnds(net, url, k)
      invariant Collect(net, first, f, fuel) == Prepend(all, Collect(net, url, f, k))
      decreases k
    {
      var res := Fetch(net(url), "");
      if res.Err? {
        return Err(res.error);
      }
      var page := res.value;
      PrependAppend(all, FilterMap(page.items, f), if page.next.None? then Ok([]) else Collect(net, page.next.value, f, k - 1));
      all := all + FilterMap(page.items, f);
      if page.next.None? {
        return Ok(all);
      }
      url := page.next.value;
      k := k - 1;
    }
  }

  lemma PrependAppend<T>(xs: seq<T>, ys: seq<T>, r: Result<seq<T>>)
    ensures Prepend(xs, Prepend(ys, r)) == Prepend(xs + ys, r)
  {
    if r.Ok? {
      assert xs + (ys + r.value) == (xs + ys) + r.value;
    }
  }

  /** The answers the loop reads, in order: it goes on past a page only when that page
      decoded and names a next one. */
  function Visited<R>(net: string -> HttpOutcome<Page<R>>, url: string, fuel: nat): (v: seq<HttpOutcome<Page<R>>>)
    requires ChainEnds(net, url, fuel)
    ensures |v| >= 1 && v[0] == net(url)
    decreases fuel
  {
    var o := net(url);
    if o.Body? && o.value.next.Some? then [o] + Visited(net, o.value.next.value, fuel - 1) else [o]
  }

  function Flatten<T>(xss: seq<seq<T>>): seq<T>
  {
    if xss == [] then [] else xss[0] + Flatten(xss[1..])
  }

  /** The kept items of each decoded page. */
  function PageItems<R, T>(pages: seq<HttpOutcome<Page<R>>>, f: R -> Option<T>): seq<seq<T>>
  {
    seq(|pages|, i requires 0 <= i < |pages| => if pages[i].Body? then FilterMap(pages[i].value.items, f) else [])
  }

  /** The listing succeeds exactly when every page it reads decodes, and then it is the kept
      items of those pages in page order; otherwise it fails with the last page's error, and
      that page is the only one that failed. */
  lemma {:induction false} CollectVisited<R, T>(net: string -> HttpOutcome<Page<R>>, url: string, f: R -> Option<T>, fuel: nat)
    requires ChainEnds(net, url, fuel)
    ensures var v := Visited(net, url, fuel);
            var r := Collect(net, url, f, fuel);
            && (forall i :: 0 <= i < |v| - 1 ==> v[i].Body? && v[i].value.next.Some?)
            && (v[|v| - 1].Body? ==> v[|v| - 1].value.next.None?)
            && (r.Ok? <==> v[|v| - 1].Body?)
            && (r.Ok? ==> r.value == Flatten(PageItems(v, f)))
            && (r.Err? ==> r.error == Fetch(v[|v| - 1], "").error)
    decreases fuel
  {
    var o := net(url);
    var v := Visited(net, url, fuel);
    if o.Body? && o.value.next.Some? {
      var rest := Visited(net, o.value.next.value, fuel - 1);
      CollectVisited(net, o.value.next.value, f, fuel - 1);
      assert v == [o] + rest;
      assert PageItems(v, f) == [FilterMap(o.value.items, f)] + PageItems(rest, f);
      assert PageItems(v, f)[1..] == PageItems(rest, f);
    } else {
      assert v == [o];
      if o.Body? {
        assert PageItems(v, f) == [FilterMap(o.value.items, f)];
        assert Flatten(PageItems(v, f)) == FilterMap(o.value.items, f) + Flatten([]);
      }
    }
  }

  // ---------------------------------------------------------------- the three listings

  function PlaylistOf(p: RawPlaylist): Option<Playlist> { Some(Playlist(p.id, p.name, p.total)) }

  /** A playlist entry with a null track is dropped. */
  function ItemTrack(i: PlaylistItem): Option<Track>
  {
    match i.track
    case Some(t) => Some(TrackFromRaw(t))
    case None => None
  }

  function SavedTrackOf(s: SavedTrack): Option<Track> { Some(TrackFromRaw(s.track)) }

  /** `playlist_tracks` drops an entry with a null track and nothing else: removing it changes
      nothing, and a page without null entries yields one track per entry. */
  lemma PlaylistTracksDropNull(items: seq<PlaylistItem>, j: nat)
    requires j < |items| && items[j].track.None?
    ensures FilterMap(items, ItemTrack) == FilterMap(items[..j] + items[j + 1..], ItemTrack)
  {
    FilterMapSkip(items, j, ItemTrack);
  }

  lemma PlaylistTracksKeepTracks(items: seq<PlaylistItem>)
    requires forall i :: 0 <= i < |items| ==> items[i].track.Some?
    ensures |FilterMap(items, ItemTrack)| == |items|
    ensures forall i :: 0 <= i < |items| ==> FilterMap(items, ItemTrack)[i] == TrackFromRaw(items[i].track.value)
  {
    FilterMapAll(items, ItemTrack);
  }

  /** `liked_tracks` and `playlists` keep every entry of a page, in order. */
  lemma LikedTracksKeepAll(items: seq<SavedTrack>)
    ensures |FilterMap(items, SavedTrackOf)| == |items|
    ensures forall i :: 0 <= i < |items| ==> FilterMap(items, SavedTrackOf)[i] == TrackFromRaw(items[i].track)
  {
    FilterMapAll(items, SavedTrackOf);
  }

  lemma PlaylistsKeepAll(items: seq<RawPlaylist>)
    ensures |FilterMap(items, PlaylistOf)| == |items|
    ensures forall i :: 0 <= i < |items| ==>
              FilterMap(items, PlaylistOf)[i] == Playlist(items[i].id, items[i].name, items[i].total)
  {
    FilterMapAll(items, PlaylistOf);
  }

  function PlaylistsUrl(): string { API + "/me/playlists?limit=50" }
  function PlaylistTracksUrl(id: string): string { API + "/playlists/" + id + "/tracks?limit=50" }
  function LikedTracksUrl(): string { API + "/me/tracks?limit=50" }

  /** `playlists`: every playlist of every page, as id, name and track count. */
  method Playlists(net: string -> HttpOutcome<Page<RawPlaylist>>, ghost fuel: nat) returns (r: Result<seq<Playlist>>)
    requires ChainEnds(net, PlaylistsUrl(), fuel)
    ensures r == Collect(net, PlaylistsUrl(), PlaylistOf, fuel)
  {
    r := CollectPages(net, PlaylistsUrl(), PlaylistOf, fuel);
  }

  /** `playlist_tracks`: the tracks of every page of a playlist, null entries dropped. */
  method PlaylistTracks(id: string, net: string -> HttpOutcome<Page<PlaylistItem>>, ghost fuel: nat)
    returns (r: Result<seq<Track>>)
    requires ChainEnds(net, PlaylistTracksUrl(id), fuel)
    ensures r == Collect(net, PlaylistTracksUrl(id), ItemTrack, fuel)
  {
    r := CollectPages(net, PlaylistTracksUrl(id), ItemTrack, fuel);
  }

  /** `liked_tracks`: the tracks of every page of the saved-tracks listing. */
  method LikedTracks(net: string -> HttpOutcome<Page<SavedTrack>>, ghost fuel: nat) returns (r: Result<seq<Track>>)
    requires ChainEnds(net, LikedTracksUrl(), fuel)
    ensures r == Collect(net, LikedTracksUrl(), SavedTrackOf, fuel)
  {
    r := CollectPages(net, LikedTracksUrl(), SavedTrackOf, fuel);
  }
}
