# A verified model of the music downloader's core

The music downloader is a GTK desktop application. It searches the Deezer catalogue for
albums, artists and tracks and lists a Spotify account's playlists and liked songs. For each
picked track it runs yt-dlp to fetch the best YouTube match as an mp3, tags the file with
ffmpeg (title, artist, album, track number and the album cover) and gives it the name
"<artist> - <title>.mp3", inside an "<artist> - <album>" folder for album tracks.

This Dafny project models the core of that program:

- `AppState` holds the application state the handlers change: result rows, download rows,
  the status line, the filter index, the logs and the download counters. `App` is a class,
  and the handlers are methods that modify it.
- `ResultRows` models one row of the result list: what it shows, the toggle and the
  browse button.
- `DlRows` models one row of the download list: its status label, style class and bar.
- `Search` covers starting a search, assembling its items by filter, and browsing.
- `Dl` covers the download bookkeeping:
  - picking the batch and numbering its rows;
  - progress and completion events;
  - the counters and the remaining-time estimate.
- `Ytdlp` models the per-track pipeline:
  - the yt-dlp command line and its output scan;
  - the cover file, the ffmpeg command line and the tagging;
  - the final rename.
- `Deezer`, `SpotifyApi` and `SpotifyAuth` model the web clients:
  - the query encoder and the request URLs;
  - the mapping of records;
  - following `next` links across pages;
  - the PKCE verifier, the callback request parser, the authorization URL and the sign-in
    steps.
- `Models` holds the catalogue records and their conversions.
- `Text`, `Paths`, `FormUrl`, `Http` and `Seqs` are the small libraries these rest on:
  - decimal and hexadecimal text, words, splitting and joining;
  - Unix path joining and `with_extension`;
  - a web server's form decoding and UTF-8;
  - the error prefixes of a JSON request;
  - sequence lemmas.

Nothing here performs input or output. Each effect the program has is a parameter that
gives its outcome:
- a network answer is a function from the URL to a `HttpOutcome`, `CoverOutcome` or `Page`;
- the file system is `present` (does a path exist), `write` and `rename`;
- running yt-dlp and ffmpeg is a function from the argument vector to what the process
  produced;
- the monotonic clock is a `now: real`;
- the random draws of the PKCE verifier are `picks`;
- the SHA-256/base64url challenge is `challengeOf`;
- the browser round trip is `browser`.

Changes the pipeline asks the file system for are returned as a sequence of `Effect`s.

## Model

| member | source | states |
|---|---|---|
| AppState.App.constructor | src/ui/app.rs:294-313 | the window starts with no result or download rows, an empty status, the "All" filter, no logs, the id counter and both batch counters at zero, no batch start and no estimate; the download rows are newest first |
| AppState.PushNewest | src/ui/dl.rs:60-65 | pushing a row with the counter's id to the front and bumping the counter keeps the ids strictly falling from the front and all below the counter |
| AppState.NewestFirstDistinct | src/ui/dl.rs:87-88 | in a newest-first list no two rows share an id, so the id of a progress or completion event names at most one row |
| AppState.SameIdsNewestFirst | src/ui/dl.rs:89-92 | changing rows' progress or status without touching their ids keeps the newest-first order |
| ResultRows.Toggled | src/ui/result_row.rs:152-156 | a toggle changes the selection exactly when the row is an album or a track |
| ResultRows.ResultRow.constructor | src/ui/result_row.rs:146-148 | a new row holds its item and is unselected |
| ResultRows.ResultRow.Toggle | src/ui/result_row.rs:152-156 | the selection after a toggle is the flipped one for album and track rows and the same one for every other row |
| ResultRows.ResultRow.Browse | src/ui/result_row.rs:157-165 | browsing sends the album, the artist, the playlist's id and name, or the liked-songs marker, and nothing for a track |
| ResultRows.ToggleTwice | src/ui/result_row.rs:152-156 | two toggles give back the original selection |
| ResultRows.BrowseButtonMatches | src/ui/result_row.rs:137-140 | the browse button is visible exactly for the rows whose browsing sends something; an album row sends its album, an artist row its artist, a playlist row its id and name |
| ResultRows.BrowseInjective | src/ui/result_row.rs:157-165 | two rows that send the same output are the same item, except that playlists are only identified by id and name |
| ResultRows.TrackTitleReadsBack | src/ui/result_row.rs:77-80 | the heading `TitleLabel` gives a numbered track reads back: the digits before the first '.' parse to the track position, and ". " and the title follow |
| DlRows.InitModel | src/ui/dl_row.rs:77-84 | a new download row holds its id and track and is queued at zero progress |
| DlRows.BarFraction | src/ui/dl_row.rs:48-49 | the bar's fraction is the progress over a hundred, so a progress between 0 and 100 fills between none and all of the bar |
| DlRows.RoundHalfEven | src/ui/dl_row.rs:60 | the rounded value is within one half of the progress |
| DlRows.ActiveLabelNearest | src/ui/dl_row.rs:58-63 | a running row's label (`StatusLabel`) is a whole number and '%', and that number is within one half of the progress |
| DlRows.LabelDistinguishes | src/ui/dl_row.rs:58-63 | equal `StatusLabel` texts mean the same kind of status, and two failure labels mean the same error message |
| DlRows.BarMatchesClass | src/ui/dl_row.rs:47-70 | the class `CssClass` selects for each status: "accent" exactly while the progress bar is visible, "success" exactly for a finished row, "error" exactly for a failed one |
| DlRows.LabelClasses | src/ui/dl_row.rs:64-70 | the label carries a class exactly when some status it has shown selects it: classes are added and never removed |
| DlRows.ClassesAccumulate | src/ui/dl_row.rs:64-70 | a row shown queued, running and done carries "dim-label", "accent" and "success" together while its bar is hidden |
| DlRows.CurrentClasses | src/ui/dl_row.rs:64-70 | with the class replaced on each change, the label carries one class: "accent" exactly while the bar shows, "success" exactly when done, "error" exactly when failed |
| Models.DurationFmtReadsBack | src/models/track.rs:23-27 | the duration text of `DurationFmt` is digits, ':' and two digits, and minutes times sixty plus seconds give back the duration truncated to whole seconds (negative values give zero) |
| Models.DurationFmtExample | src/models/track.rs:23-27 | 185 seconds show as "3:05" |
| Models.FromDz | src/models/track.rs:29-46 | the cover is the record's album cover when it has a non-empty one and the fallback otherwise; the album title falls back only when the record has no album; a missing artist gives ""; title, duration and position are copied; the track is not an album track |
| Models.YtQuery | src/models/track.rs:48-50 | the query is the artist, " - " and the title |
| Models.AlbumFromDz | src/models/album.rs:39-47 | the album takes the record's id, title, cover and track count, and the artist's name or "" without an artist |
| Http.Fetch | src/backend/deezer.rs:9-14 | a request succeeds exactly when the body decoded, with that body; a failed request gives "req: …" and an undecodable body "parse: …" |
| Deezer.EncAppend | src/backend/deezer.rs:54-60 | `enc` (`Deezer.Enc`, one `EncChar` per character) works character by character: the encoding of a concatenation is the concatenation of the encodings |
| Deezer.EncKeptFixed | src/backend/deezer.rs:57 | a string of alphanumerics and "-_.~" is its own encoding |
| Deezer.EncExamples | src/backend/deezer.rs:54-60 | "+" encodes as "%2B", "&" as "%26", and "a b" as "a+b" |
| Deezer.EncNoDelimiters | src/backend/deezer.rs:54-60 | every character `Enc` outputs is '+', '%', an upper-case hex digit or a kept character, so no space, '&', '=', '?' or '#' appears |
| Deezer.EncCodePointMisdecoded | src/backend/deezer.rs:58 | the quotation mark U+2019 is escaped as "%2019", which a server decodes to the three bytes " 19" and not to the character's UTF-8 bytes |
| Deezer.EncUtf8RoundTrip | src/backend/deezer.rs:54-60 | with each escaped character written as its UTF-8 bytes, form decoding the encoding gives exactly the UTF-8 bytes of the query |
| Deezer.EncUtf8NoDelimiters | src/backend/deezer.rs:54-60 | the corrected encoding keeps the delimiter-free alphabet |
| Deezer.EncAsciiAgrees | src/backend/deezer.rs:54-60 | where every escaped character is ASCII, `enc` gives the same text as the UTF-8 encoder |
| Deezer.SearchUrl | src/backend/deezer.rs:17 | a search URL starts with the API, "/search/", the kind and "?q=", and ends with "&limit=25" |
| Deezer.SearchUrlQuery | src/backend/deezer.rs:16-29 | the search URL as built has exactly one '?' and two parameters, "q=" with `enc` of the query and "limit=25"; the value decodes to the query whenever its escaped characters are ASCII |
| Deezer.SearchUrlUtf8 | src/backend/deezer.rs:17 | the search URL with the corrected encoder has the same prefix and suffix |
| Deezer.SearchUrlQueryDecodes | src/backend/deezer.rs:16-29 | with the corrected encoder the search URL has exactly one '?' and two parameters, and the value of "q" decodes to the user's query whatever it holds |
| Deezer.SearchArtists | src/backend/deezer.rs:16-19 | the search succeeds exactly when the answer decodes, with one artist per record in order |
| Deezer.SearchAlbums | src/backend/deezer.rs:21-24 | the search succeeds exactly when the answer decodes, with one album per record in order |
| Deezer.SearchTracks | src/backend/deezer.rs:26-29 | the search succeeds exactly when the answer decodes, with one track per record in order, converted without album or cover fallback |
| Deezer.ArtistAlbums | src/backend/deezer.rs:31-34 | the listing succeeds exactly when the answer decodes, with one album per record in order; a failed request gives "req: …" |
| Deezer.AlbumTracks | src/backend/deezer.rs:36-43 | the listing succeeds exactly when the answer decodes, with one track per record in order, each the record converted with the album's title and cover as fallbacks and marked as an album track; a failed request gives "req: …" |
| Deezer.FetchCover | src/backend/deezer.rs:45-52 | an empty URL fails with "no cover url" before any request; otherwise the bytes, "cover: …" for a failed request, or "read: …" for a failed body |
| SpotifyApi.TrackFromRaw | src/backend/spotify/api.rs:18-32 | the first artist or "", the album's name or "", the album's first image or "", the title and the position copied, the duration in seconds (milliseconds over a thousand), and not an album track |
| SpotifyApi.CollectPages | src/backend/spotify/api.rs:38-49 | the page loop returns the listing's specification: the kept items of every page in order, or the first error |
| SpotifyApi.CollectVisited | src/backend/spotify/api.rs:38-49 | the loop goes past a page only when it decoded and has a `next` link; the listing succeeds exactly when every page it reads decodes, and then it is the kept items of those pages in page order; otherwise its error is that of the last page read |
| SpotifyApi.PrependAppend | src/backend/spotify/api.rs:40 | adding items page after page is adding their concatenation, and an error stays that error |
| SpotifyApi.PlaylistTracksDropNull | src/backend/spotify/api.rs:60 | removing an entry with a null track does not change a playlist page's tracks |
| SpotifyApi.PlaylistTracksKeepTracks | src/backend/spotify/api.rs:60 | a page without null entries gives one track per entry, in order |
| SpotifyApi.LikedTracksKeepAll | src/backend/spotify/api.rs:76 | a page of saved tracks gives one track per entry, in order |
| SpotifyApi.PlaylistsKeepAll | src/backend/spotify/api.rs:40-44 | a page of playlists gives one playlist per entry, with its id, name and track total, in order |
| SpotifyApi.Playlists | src/backend/spotify/api.rs:34-52 | `playlists` collects from "/me/playlists?limit=50" by the page loop |
| SpotifyApi.PlaylistTracks | src/backend/spotify/api.rs:54-68 | `playlist_tracks` collects from the playlist's tracks URL, dropping null entries |
| SpotifyApi.LikedTracks | src/backend/spotify/api.rs:70-84 | `liked_tracks` collects from "/me/tracks?limit=50" |
| SpotifyAuth.CharRange | src/backend/spotify/auth.rs:18 | a run of `n` consecutive characters |
| SpotifyAuth.AlphabetIndex | src/backend/spotify/auth.rs:18 | every unreserved character has a position in the verifier alphabet |
| SpotifyAuth.VerifierAlphabet | src/backend/spotify/auth.rs:18-20 | the alphabet has 66 characters, and they are exactly the unreserved characters of section 4.1 of RFC 7636 |
| SpotifyAuth.GenVerifier | src/backend/spotify/auth.rs:17-23 | a verifier is 64 unreserved characters |
| SpotifyAuth.GenVerifierOnto | src/backend/spotify/auth.rs:17-23 | every 64-character string of unreserved characters is the verifier of some sequence of draws |
| SpotifyAuth.FirstLine | src/backend/spotify/auth.rs:53-54 | the first line is absent only for an empty request; it holds no line feed and starts the request |
| SpotifyAuth.FirstCodeIndex | src/backend/spotify/auth.rs:57 | the index found is that of the first parameter starting with "code=" |
| SpotifyAuth.CallbackCode | src/backend/spotify/auth.rs:52-59 | a code is found exactly when some parameter of the request target starts with "code=", and it is the first such parameter with its leading "code=" prefixes stripped; otherwise the error is "no code in callback" |
| SpotifyAuth.CallbackCodeOfRequest | src/backend/spotify/auth.rs:52-59 | for a request line "<method> <path>?<params> <version>" the code is the first "code=" parameter with the prefix removed |
| SpotifyAuth.CallbackCodeFirstWins | src/backend/spotify/auth.rs:57 | in "GET /callback?state=x&code=abc&code=d HTTP/1.1" the first code, "abc", is taken |
| SpotifyAuth.ListenCallback | src/backend/spotify/auth.rs:38-66 | each listener failure gives its own message ("bind: …", "auth timeout", "accept: …", "read: …"); a request read gives its callback code |
| SpotifyAuth.AuthorizeUrlParams | src/backend/spotify/auth.rs:72-75 | for a client id and challenge free of '&' and '?', the URL splits into the authorize endpoint and exactly the six parameters, among them the S256 method and the loopback redirect |
| SpotifyAuth.MakeTokens | src/backend/spotify/auth.rs:107-111 | the session keeps the access token, the refresh token or "", and the display name or "spotify user" |
| SpotifyAuth.Authorize | src/backend/spotify/auth.rs:68-112 | a callback failure is the sign-in's failure; after it the token and profile steps fail with "token req: …", "token parse: …", "profile req: …" or "profile parse: …"; the sign-in succeeds exactly when the token was obtained for the delivered code with the verifier whose challenge was in the URL and the profile was read with that token, and then holds the stored session built from both |
| Paths.Join | src/backend/ytdlp.rs:19 | an absolute name replaces the base; a relative one ends the joined path, which starts with the base |
| Paths.JoinRelative | src/backend/ytdlp.rs:78 | a relative name is joined to a base without a trailing '/' by one new separator |
| Paths.NameStart | src/backend/ytdlp.rs:87 | the file name starts after the last '/' |
| Paths.StemLength | src/backend/ytdlp.rs:87 | the extension starts at the last '.' that is not the name's first character |
| Paths.TmpPathOfMp3 | src/backend/ytdlp.rs:87 | `WithExtension` turns "x.mp3" into "x.tmp.mp3" and a file named just ".mp3" becomes ".mp3.tmp.mp3"; the temporary path always differs from the download |
| Ytdlp.FirstPercentWord | src/backend/ytdlp.rs:137-138 | the index found is that of the first word ending in '%' |
| Ytdlp.ParsePct | src/backend/ytdlp.rs:135-141 | a line without "[download]" carries no progress |
| Ytdlp.ParsePctReadsBack | src/backend/ytdlp.rs:135-141 | "[download]", blanks, "<n>.<d>%" and any rest reads back as n + d/10 |
| Ytdlp.ParsePctExample | src/backend/ytdlp.rs:135-141 | "[download]  42.0% of 3.1MiB" reads as 42.0 |
| Ytdlp.TrackDir | src/backend/ytdlp.rs:76-84 | an album track with an artist and an album goes into the folder "<artist> - <album>" joined to the base: under the base and different from it when the artist does not start with '/', and the absolute folder itself, outside the base, when it does; any other track goes into the base |
| Ytdlp.AbsoluteArtistLeavesBase | src/backend/ytdlp.rs:78 | with base "/home/u/Music", the album track "T" of artist "/x" and album "A" goes into the folder "/x - A", and its final name is "/x - T.mp3" |
| Ytdlp.YtdlpArgs | src/backend/ytdlp.rs:21-30 | the command line has 16 arguments and ends with the output template in the track's folder (`TrackDir`) and the search for "artist - title" |
| Ytdlp.ScanOutput | src/backend/ytdlp.rs:35-58 | the log is every stdout line and then every stderr line after "[stderr] ", each ending in a line feed; the progress values are those of the stdout lines in order; the produced file is the last stdout line naming one |
| Ytdlp.ScanStdout | src/backend/ytdlp.rs:38-49 | the stdout loop keeps the log, the progress values and the produced file equal to their specification over the lines read |
| Ytdlp.ScanLine | src/backend/ytdlp.rs:40-47 | one line extends the log, the progress values and the produced file as the specification over one more line |
| Ytdlp.StdoutStep | src/backend/ytdlp.rs:40-47 | one more line adds itself and a line feed to the log, its own progress value, and replaces the produced file exactly when it names one |
| Ytdlp.ScanStderr | src/backend/ytdlp.rs:51-58 | every stderr line is appended after "[stderr] " with a line feed |
| Ytdlp.StdoutLogSplits | src/backend/ytdlp.rs:40-42 | the stdout log splits at line feeds back into its lines |
| Ytdlp.PairsFlat | src/backend/ytdlp.rs:89-111 | options written as name, value, name, value read back as the same pairs |
| Ytdlp.EmbedArgsReadBack | src/backend/ytdlp.rs:89-111 | ffmpeg's command line is "-y", the options as name/value pairs, and the temporary file last |
| Ytdlp.EmbedOptions | src/backend/ytdlp.rs:89-110 | ffmpeg reads the download and then the cover if any; keeps the audio and, with a cover, the picture; copies the streams; writes title, artist, album and the track number when there is one; marks the picture as the front cover exactly when there is a cover |
| Ytdlp.BuildEmbedArgs | src/backend/ytdlp.rs:89-111 | the `extend` steps build exactly the command line the options describe |
| Ytdlp.StreamArgs | src/backend/ytdlp.rs:89-100 | the first extends give "-y", the inputs, the maps and the codec options |
| Ytdlp.TagArgs | src/backend/ytdlp.rs:101-110 | the tag extends give the track's tags and, with a cover, the picture's tags |
| Ytdlp.EmbedMeta | src/backend/ytdlp.rs:86-124 | a failed ffmpeg spawn gives "ffmpeg: …" and changes nothing; a failed run removes the cover and the temporary file and gives "ffmpeg err: …"; a successful run removes the cover and renames the temporary file over the download, with "rename: …" if that fails |
| Ytdlp.EmbedKeepsTrack | src/backend/ytdlp.rs:116-123 | tagging never removes the download, and it only ever renames the distinct temporary file onto it |
| Ytdlp.EmbedSucceeds | src/backend/ytdlp.rs:113-123 | tagging succeeds exactly when ffmpeg ran and succeeded and the rename worked; the cover is removed exactly when ffmpeg ran |
| Ytdlp.CoverCounter.constructor | src/backend/ytdlp.rs:11 | the counter starts at zero |
| Ytdlp.CoverCounter.FetchAdd | src/backend/ytdlp.rs:129 | `fetch_add` returns the current value and advances the counter by one, wrapping at 2^64 |
| Ytdlp.CoverPathsDistinct | src/backend/ytdlp.rs:129-130 | different counter values give different cover files |
| Ytdlp.FetchCoverSpec | src/backend/ytdlp.rs:126-133 | no cover URL or a failed download gives nothing and uses no number; otherwise the next number's file is written and is returned exactly when the write succeeded |
| Ytdlp.FetchCoverTmp | src/backend/ytdlp.rs:126-133 | the method returns the cover file and writes of its specification, and the counter moves on exactly when a number was used |
| Ytdlp.LastMp3IsMp3 | src/backend/ytdlp.rs:44-47 | the produced file `LastMp3` picks, if any, is an existing path ending in ".mp3" that some stdout line holds, trimmed |
| Ytdlp.Download | src/backend/ytdlp.rs:13-74 | the result, the progress reports in order, the file-system changes and the cover counter are those of the download's specification |
| Ytdlp.Conclude | src/backend/ytdlp.rs:60-74 | after the output is read: a failed wait, a failed exit, or no produced file end the download with their messages |
| Ytdlp.Finish | src/backend/ytdlp.rs:64-73 | with a produced file: progress 90, the cover, the tags, the final name, progress 100 |
| Ytdlp.DownloadOfRun | src/backend/ytdlp.rs:13-63 | a failed spawn gives "spawn: …" and only the folder's creation; a run gives the log of both streams, the progress of the stdout lines and the last produced file, which ends in ".mp3" and exists |
| Ytdlp.DownloadSucceeds | src/backend/ytdlp.rs:60-73 | a download succeeds exactly when yt-dlp exited successfully, a file was produced and tagging succeeded; it then returns the log and reports every progress value, then 90 and 100 |
| Ytdlp.DownloadFailures | src/backend/ytdlp.rs:60-67 | each failure names its cause ("wait: …", "yt-dlp failed", "mp3 not found"); the progress reported and the changes asked for before the failure are kept as a prefix |
| Ytdlp.DownloadFinalName | src/backend/ytdlp.rs:69-70 | after a success the last change renames the download to "<artist> - <title>.mp3" joined to the track's folder (`TrackDir`; an artist starting with '/' makes the name absolute), or, when it already has that name, is tagging's rename over it |
| Search.QueriedByFilter | src/ui/search.rs:16-30 | filter 0 runs albums, artists and tracks in that order; 1, 2 and 3 run only their own search; any other index runs none |
| Search.Take | src/ui/search.rs:18 | at most `n` items, a prefix of the answer |
| Search.Outcome | src/ui/search.rs:31-35 | a search with no items reports "no results", and otherwise its items |
| Search.Assemble | src/ui/search.rs:14-36 | the searches run are exactly those the filter asks for, in order, and the outcome is that of the assembled items |
| Search.AssembledLayout | src/ui/search.rs:15-30 | the items are up to ten albums from the front of their answer, then up to five artists, then every track; a skipped or failed source adds nothing |
| Search.FailureContributesNothing | src/ui/search.rs:17-28 | a failing search counts as an empty answer and never fails the others |
| Search.SkippedSourceIgnored | src/ui/search.rs:16-20 | a source the filter skips does not matter, whatever it answers |
| Search.StartSearch | src/ui/search.rs:7-12 | a search empties the result list, marks the window busy and searching, shows the query, and hands over the filter index |
| Search.AppendRows | src/ui/search.rs:43-46 | new unselected rows for the items are pushed after the existing rows, which stay as they were |
| Search.SearchDone | src/ui/search.rs:39-47 | a finished search ends the busy state, shows the item count, and appends its items to whatever the list holds |
| Search.BrowseArtist | src/ui/search.rs:49-51 | browsing an artist marks the window busy and shows the artist's name; every other field of the application is unchanged |
| Search.BrowseAlbum | src/ui/search.rs:68-70 | browsing an album marks the window busy and shows the album's title; every other field of the application is unchanged |
| Search.ArtistAlbums | src/ui/search.rs:58-66 | the list is replaced by new unselected rows for the artist's albums, in order, the count is shown and the busy state ends; every other field is unchanged |
| Search.AlbumTracks | src/ui/search.rs:77-85 | the list is replaced by new unselected rows for the album's tracks, in order, the count is shown and the busy state ends; every other field is unchanged |
| Dl.SelectedTracksMembers | src/ui/dl.rs:13-21 | a track is picked exactly when a selected row holds it |
| Dl.SelectedAlbumsMembers | src/ui/dl.rs:13-21 | an album is picked exactly when a selected row holds it |
| Dl.SelectedTracksPrefix | src/ui/dl.rs:13-21 | picking is in list order: the picks of a prefix of the rows are a prefix of the picks |
| Dl.Partition | src/ui/dl.rs:10-21 | the loop collects exactly the selected tracks and the selected albums |
| Dl.AlbumsTracksAppend | src/ui/dl.rs:35-39 | the albums' tracks concatenate over a split of the album list |
| Dl.AlbumsTracksAllFail | src/ui/dl.rs:35-39 | when every album fetch fails the albums add no track |
| Dl.CollectBatch | src/ui/dl.rs:34-40 | the batch is the picked tracks followed by the tracks of each album whose fetch succeeded, in album order |
| Dl.DlSelected | src/ui/dl.rs:9-45 | with nothing picked only "none selected" is shown; otherwise the window is busy, the status names the album count when there are albums, and the batch started is the picked tracks then the albums' tracks |
| Dl.DlTracks | src/ui/dl.rs:47-83 | an empty batch shows "no tracks found" and changes nothing else; otherwise the batch counters restart at the batch size, the batch's rows go in front with consecutive ids, and each track is handed out with its row's id |
| Dl.StartBatch | src/ui/dl.rs:53-82 | a batch with tracks restarts the counters, queues its rows in front, and pairs each track with its id |
| Dl.Enqueue | src/ui/dl.rs:58-66 | each track takes the next id and its queued row goes in front; the rows stay newest first |
| Dl.Pair | src/ui/dl.rs:69 | each id is paired with the track at the same position |
| Dl.JobsNumbered | src/ui/dl.rs:58-69 | the k-th track of a batch is handed out with the counter's value plus k |
| Dl.BatchNewestFirst | src/ui/dl.rs:58-66 | a batch numbered from the counter in front of a newest-first list keeps it newest first |
| Dl.BatchRows | src/ui/dl.rs:60-65 | the batch's rows are its tracks last first, queued at zero with consecutive ids |
| Dl.IndexOfId | src/ui/dl.rs:87-88 | the index found is that of the first row with the id, or the list's length |
| Dl.FindRow | src/ui/dl.rs:103-104 | the scan finds the first row with the id |
| Dl.ProgressedOnlyTarget | src/ui/dl.rs:86-95 | only the first row with the id changes, and it becomes active at the reported value whatever its status was; ids and tracks never change; an unknown id changes nothing |
| Dl.DlProgress | src/ui/dl.rs:85-98 | the row is updated and the estimate recomputed; nothing else changes |
| Dl.FinishedUpdate | src/ui/dl.rs:122-129 | replacing one row changes the finished count by what that row contributes |
| Dl.CompletedCount | src/ui/dl.rs:101-129 | a completion keeps the rows' ids and count, and finishes one more row exactly when its row was still queued or running |
| Dl.CompletedNewestFirst | src/ui/dl.rs:101-121 | a completion keeps the rows newest first |
| Dl.CompletedRow | src/ui/dl.rs:105-117 | success marks the row done at 100 and logs "=== artist - title ===" and the log; failure marks it failed with the error, keeps its progress and logs "=== fail: artist - title ===" and the error |
| Dl.Record | src/ui/dl.rs:101-121 | the loop records the outcome on the row and makes the log block |
| Dl.CountFinished | src/ui/dl.rs:122-129 | the count is that of the done or failed rows |
| Dl.DlDone | src/ui/dl.rs:100-148 | the outcome is recorded and its log block appended; the finished count of the whole list is stored; when every row is finished the window is idle with "done (n tracks)", no estimate and no batch start, and otherwise "done/total" with the estimate recomputed |
| Dl.Tally | src/ui/dl.rs:138-147 | the count is stored, then either the batch closes or the progress and estimate are shown |
| Dl.UpdateEta | src/ui/dl.rs:150-169 | the estimate is recomputed from the batch start, the counters and the clock; nothing else changes |
| Dl.EtaEmpty | src/ui/dl.rs:150-162 | the `EtaText` estimate is empty exactly when no batch has started, nothing has finished, or nothing remains |
| Dl.EtaReadsBack | src/ui/dl.rs:163-168 | a shown `EtaText` estimate is "eta ", minutes, ':' and two digits, and minutes times sixty plus seconds give the whole seconds of the mean time per finished download times those remaining |
| Dl.EtaExample | src/ui/dl.rs:163-168 | one of four downloads done after ten seconds shows "eta 00:30" |
| Dl.EtaLostInLaterBatch | src/ui/dl.rs:122-138 | a second batch of two after a finished batch of two, one of them done, counts three finished against a total of two, so no estimate is shown |
| Dl.BatchEtaShown | src/ui/dl.rs:150-168 | counted over the current batch's rows, an estimate is shown whenever the batch has both finished and unfinished rows |
| Dl.BatchEtaExample | src/ui/dl.rs:163-168 | counted by batch, the example above shows "eta 00:10" |

## Left out

- Concurrency is left out. Spawned tasks become the values they would send back:
  - `DlSelected` returns the batch it would start;
  - `DlTracks` returns the jobs it would spawn;
  - `Search.Assemble` returns the search outcome.
  The three-permit semaphore of src/ui/dl.rs:68 and the interleaving of progress and
  completion events are not modelled. Neither is the relaxed ordering of the cover counter.
- Floating point becomes `real`:
  - progress values, durations and elapsed seconds are exact;
  - `{:.0}` is rounding half to even on the exact value;
  - `as u64` saturates and truncates;
  - infinities, NaN and exponent forms of Rust's float parsing are not modelled beyond
    what `Text.ParseFloat` accepts.
- The clock (`Instant::now`, `elapsed`) becomes a `now: real` parameter in seconds.
- Integer widths: the download id counter (`next_dl_id: u64`) and the `usize` counters
  are `nat`. A wrap after 2^64 downloads is not modelled. The cover counter does wrap.
- `char::is_alphanumeric` is exact on ASCII and Latin-1. Characters above U+00FF count as
  not alphanumeric, so a letter such as 'ł' is escaped where the program keeps it.
- Paths are text with Unix `/` separators. Lossy conversion of non-UTF-8 paths
  (`to_string_lossy`) is not modelled.
- The callback listener reads at most 4096 bytes, and invalid UTF-8 is decoded lossily.
  Both are left out: the request text is the outcome's `text`. The reply page written to
  the browser is left out.
- `pkce_challenge` (SHA-256 then base64url) is the parameter `challengeOf`.
- `open_browser` and the callback it leads to are the parameter `browser`.
- The token and profile requests are the parameters `tokenNet` and `profileNet`. A profile
  request's failure is only modelled through `Http.Fetch`'s prefixes.
- The `Authorization: Bearer` header of the Spotify requests is not modelled, and
  `authed_get` is `Http.Fetch` on the page outcome.
- SpotifyApi.CollectPages: termination of an endless `next` chain is not modelled. The
  listings require `ChainEnds`, a ghost bound on the number of pages.
- yt-dlp's binary path (the configuration) and the process spawn are the parameter
  `env.ytdlp`. A read error that ends a `while let` loop early is not modelled: every line
  is read.
- `present` is a snapshot of the file system while the output is read.
- `Ytdlp.Download`: a failed final rename is ignored by the program; the model returns the
  rename as an effect without its outcome. `create_dir_all`'s outcome is ignored in the
  same way.
- `log_handle` and `append_log` (src/ui/dl.rs:133-135) are left out. The field is not
  declared on `App` in src/ui/app.rs:14-33; only `app.logs` is modelled.
- `select_all` (src/ui/search.rs:87-100) is left out, because it works on the widgets
  rather than on the rows' state.
- The result row's subtitle labels (src/ui/result_row.rs:93-127) and icons are left out.
- Widgets, dialogs, settings and persistence are left out.
- The Spotify connection state of `App` and the message dispatch of src/ui/handlers.rs
  are not part of this model.
- `Models.ArtistFromDz` is a plain copy of the record, stated without a contract of its
  own.
- The three searches use `Deezer.SearchUrl`, built with `enc` as written. The corrected
  URL of the first finding below is `Deezer.SearchUrlUtf8`.
- The status label's classes are modelled as the set of classes of the statuses it has
  shown (`DlRows.LabelClasses`); which of several classes wins on screen depends on the
  theme's style sheet and is not modelled.
- `Dl.DlDone`, `Dl.DlProgress` and `Dl.UpdateEta` keep the estimate as the code computes
  it. The batch-counted estimate of the second finding is stated beside them as
  `Dl.BatchEtaText`.

## Findings

| source | as written | input that shows it | evidently intended | confidence | as-written member | corrected member |
|---|---|---|---|---|---|---|
| src/backend/deezer.rs:58 | a character that is not kept is escaped as '%' and the hexadecimal digits of its code point | the query "’" (U+2019) becomes "%2019", which a server decodes to the bytes " 19" | percent-encoding of the character's UTF-8 bytes ("%E2%80%99") | high; not executed | Deezer.EncCodePointMisdecoded | Deezer.SearchUrlQueryDecodes |
| src/ui/dl.rs:122-138 | `dl_done` counts the finished rows of the whole list, while `dl_total` is the size of the current batch | a batch of two finishes, then a batch of two starts and one of its tracks finishes: three finished against a total of two, so the estimate is empty | the estimate of the current batch, counting only its rows | medium; not executed | Dl.EtaLostInLaterBatch | Dl.BatchEtaShown |
| src/ui/dl_row.rs:64-70 | the label's class is set with `add_css_class` under `#[watch]`, which adds the class of each new status and removes none | a download shown queued, then running, then done carries "dim-label", "accent" and "success" at once | the label carries only the class of the status it shows | medium; not executed | DlRows.ClassesAccumulate | DlRows.CurrentClasses |
