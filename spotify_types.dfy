/** The Spotify records of `src/backend/spotify/types.rs`. A field the JSON leaves out takes
    its default (an empty string or list, `None`, zero). */
module SpotifyTypes {
  import opened Wrappers
  import opened Models

  /** The stored session: bearer token, refresh token and the account's display name. */
  datatype Tokens = Tokens(accessToken: string, refreshToken: string, displayName: string)

  datatype Playlist = Playlist(id: string, name: string, nbTracks: u32)

  /** The token endpoint's answer; the refresh token may be absent. */
  datatype TokenRes = TokenRes(accessToken: string, refreshToken: Option<string>)

  /** The `/me` answer; the display name may be absent or null. */
  datatype ProfileRes = ProfileRes(displayName: Option<string>)

  /** One page of a paginated listing: its items and the URL of the next page, if any
      (`PlaylistsRes`, `PlaylistTracksRes` and `SavedTracksRes` all have this shape). */
  datatype Page<R> = Page(items: seq<R>, next: Option<string>)

  /** A playlist as listed; `total` is `tracks.total`. */
  datatype RawPlaylist = RawPlaylist(id: string, name: string, total: u32)

  /** A playlist entry; its track is null for removed or local items. */
  datatype PlaylistItem = PlaylistItem(track: Option<RawTrack>)

  datatype SavedTrack = SavedTrack(track: RawTrack)

  datatype RawTrack = RawTrack(
    name: string,
    durationMs: real,
    trackNumber: Option<u32>,
    artists: seq<RawArtist>,
    album: Option<RawAlbum>)

  datatype RawArtist = RawArtist(name: string)

  datatype RawAlbum = RawAlbum(name: string, images: seq<Image>)

  datatype Image = Image(url: string)
}
