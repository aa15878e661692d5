/** The download bookkeeping of `src/ui/dl.rs`: turning the picked result rows into a batch,
    numbering and queueing the batch's rows, applying progress and completion events by id,
    and the remaining-time estimate. The downloads themselves run elsewhere
    (`Ytdlp.Download`); here they are the list of jobs a batch hands out. */
module Dl {
  import opened Wrappers
  import opened Text
  import opened Models
  import opened DlRows
  import opened ResultRows
  import opened AppState
  import Seqs

  // ---------------------------------------------------------------- picking a batch

  /** The tracks of the selected track rows, in list order. */
  function SelectedTracks(rs: seq<ResultRow>): (ts: seq<Track>)
    reads rs
    ensures |ts| <= |rs|
  {
    if rs == [] then []
    else
      var r := rs[|rs| - 1];
      SelectedTracks(rs[..|rs| - 1]) + (if r.selected && r.item.TrackResult? then [r.item.track] else [])
  }

  /** The albums of the selected album rows, in list order. */
  function SelectedAlbums(rs: seq<ResultRow>): (albums: seq<Album>)
    reads rs
    ensures |albums| <= |rs|
  {
    if rs == [] then []
    else
      var r := rs[|rs| - 1];
      SelectedAlbums(rs[..|rs| - 1]) + (if r.selected && r.item.AlbumResult? then [r.item.album] else [])
  }

  /** A track is picked exactly when some selected row holds it. */
  lemma {:induction false} SelectedTracksMembers(rs: seq<ResultRow>, t: Track)
    ensures t in SelectedTracks(rs) <==> exists i :: 0 <= i < |rs| && rs[i].selected && rs[i].item == TrackResult(t)
    decreases |rs|
  {
    if rs != [] {
      var n := |rs| - 1;
      SelectedTracksMembers(rs[..n], t);
      assert forall i :: 0 <= i < n ==> rs[..n][i] == rs[i];
      if rs[n].selected && rs[n].item == TrackResult(t) {
        assert t in SelectedTracks(rs);
      }
    }
  }

  /** An album is picked exactly when some selected row holds it. */
  lemma {:induction false} SelectedAlbumsMembers(rs: seq<ResultRow>, a: Album)
    ensures a in SelectedAlbums(rs) <==> exists i :: 0 <= i < |rs| && rs[i].selected && rs[i].item == AlbumResult(a)
    decreases |rs|
  {
    if rs != [] {
      var n := |rs| - 1;
      SelectedAlbumsMembers(rs[..n], a);
      assert forall i :: 0 <= i < n ==> rs[..n][i] == rs[i];
      if rs[n].selected && rs[n].item == AlbumResult(a) {
        assert a in SelectedAlbums(rs);
      }
    }
  }

  /** Picking rows one after the other keeps their order: the picks of a longer list extend
      those of its prefix. */
  lemma {:induction false} SelectedTracksPrefix(rs: seq<ResultRow>, k: nat)
    requires k <= |rs|
    ensures SelectedTracks(rs[..k]) <= SelectedTracks(rs)
    decreases |rs| - k
  {
    if k < |rs| {
      SelectedTracksPrefix(rs, k + 1);
      assert rs[..k + 1][..k] == rs[..k];
    } else {
      assert rs[..k] == rs;
    }
  }

  /** The tracks of the albums whose fetch succeeds, album after album; a failed fetch adds
      nothing. */
  function AlbumsTracks(albums: seq<Album>, fetch: Album -> Result<seq<Track>>): seq<Track>
  {
    if albums == [] then []
    else
      var a := albums[|albums| - 1];
      AlbumsTracks(albums[..|albums| - 1], fetch) + (if fetch(a).Ok? then fetch(a).value else [])
  }

  /** The albums' tracks concatenate over a split of the album list. */
  lemma {:induction false} AlbumsTracksAppend(a: seq<Album>, b: seq<Album>, fetch: Album -> Result<seq<Track>>)
    ensures AlbumsTracks(a + b, fetch) == AlbumsTracks(a, fetch) + AlbumsTracks(b, fetch)
    decreases |b|
  {
    if b == [] {
      assert a + b == a;
    } else {
      var n := |b| - 1;
      assert (a + b)[..|a + b| - 1] == a + b[..n];
      AlbumsTracksAppend(a, b[..n], fetch);
    }
  }

  /** When every fetch fails, the albums add no track. */
  lemma {:induction false} AlbumsTracksAllFail(albums: seq<Album>, fetch: Album -> Result<seq<Track>>)
    requires forall i :: 0 <= i < |albums| ==> fetch(albums[i]).Err?
    ensures AlbumsTracks(albums, fetch) == []
    decreases |albums|
  {
    if albums != [] {
      var n := |albums| - 1;
      assert forall i :: 0 <= i < n ==> albums[..n][i] == albums[i];
      AlbumsTracksAllFail(albums[..n], fetch);
    }
  }

  /** The background part of `dl_selected`: the picked tracks, then the tracks of each picked
      album whose fetch succeeds. */
  method CollectBatch(tracks: seq<Track>, albums: seq<Album>, fetch: Album -> Result<seq<Track>>)
    returns (all: seq<Track>)
    ensures all == tracks + AlbumsTracks(albums, fetch)
  {
    all := tracks;
    var i := 0;
    while i < |albums|
      invariant 0 <= i <= |albums|
      invariant all == tracks + AlbumsTracks(albums[..i], fetch)
    {
      assert albums[..i + 1][..i] == albums[..i];
      var r := fetch(albums[i]);
      if r.Ok? {
        all := all + r.value;
      }
      i := i + 1;
    }
    assert albums[..i] == albums;
  }

  /** The first half of `dl_selected`: the selected track rows and album rows, in list
      order. */
  method Partition(rs: seq<ResultRow>) returns (tracks: seq<Track>, albums: seq<Album>)
    ensures tracks == SelectedTracks(rs) && albums == SelectedAlbums(rs)
  {
    tracks, albums := [], [];
    var i := 0;
    while i < |rs|
      invariant 0 <= i <= |rs|
      invariant tracks == SelectedTracks(rs[..i]) && albums == SelectedAlbums(rs[..i])
    {
      assert rs[..i + 1][..i] == rs[..i];
      var r := rs[i];
      if r.selected {
        match r.item
        case TrackResult(t) => tracks := tracks + [t];
        case AlbumResult(a) => albums := albums + [a];
        case _ =>
      }
      i := i + 1;
    }
    assert rs[..i] == rs;
  }

  /** `dl_selected`: splits the selected rows into tracks and albums. With nothing picked it
      only says so; otherwise the application is busy and the batch to start is the tracks
      followed by the tracks of the albums that could be fetched. */
  method DlSelected(app: App, fetch: Album -> Result<seq<Track>>) returns (start: Option<seq<Track>>)
    modifies app`status, app`busy
    ensures app.results == old(app.results)
    ensures var tracks, albums := old(SelectedTracks(app.results)), old(SelectedAlbums(app.results));
            if tracks == [] && albums == [] then
              && start == None && app.status == "none selected" && app.busy == old(app.busy)
            else
              && app.busy
              && start == Some(tracks + AlbumsTracks(albums, fetch))
              && app.status == (if albums != [] then "fetching " + NatToString(|albums|) + " albums" else old(app.status))
    ensures app.downloads == old(app.downloads) && app.nextDlId == old(app.nextDlId)
    ensures app.dlDir == old(app.dlDir) && app.searching == old(app.searching) && app.filter == old(app.filter)
    ensures app.logs == old(app.logs) && app.eta == old(app.eta) && app.dlStarted == old(app.dlStarted)
    ensures app.dlTotal == old(app.dlTotal) && app.dlDone == old(app.dlDone)
  {
    var tracks, albums := Partition(app.results);
    if tracks == [] && albums == [] {
      app.status := "none selected";
      return None;
    }
    app.busy := true;
    if albums != [] {
      app.status := "fetching " + NatToString(|albums|) + " albums";
    }
    var all := CollectBatch(tracks, albums, fetch);
    start := Some(all);
  }

  // ---------------------------------------------------------------- starting a batch

  /** The rows a batch puts in front of the list: one queued row per track, numbered from
      `first` in submission order, the last track first. */
  function Batch(tracks: seq<Track>, first: nat): (rows: seq<DlRow>)
    ensures |rows| == |tracks|
  {
    if tracks == [] then []
    else
      var n := |tracks| - 1;
      [InitModel(first + n, tracks[n])] + Batch(tracks[..n], first)
  }

  /** One more track puts its row in front. */
  lemma BatchSnoc(tracks: seq<Track>, i: nat, first: nat)
    requires i < |tracks|
    ensures Batch(tracks[..i + 1], first) == [InitModel(first + i, tracks[i])] + Batch(tracks[..i], first)
  {
    Seqs.SliceOfSlice(tracks, i);
  }

  /** `dl_tracks`: an empty batch only says so. Otherwise the batch counters restart, every
      track gets the next id in turn with its queued row at the front of the list, and each
      track is handed out for download with its id. */
  method DlTracks(app: App, tracks: seq<Track>, now: real) returns (jobs: seq<(nat, Track)>)
    requires app.Valid()
    modifies app`status, app`dlStarted, app`dlTotal, app`dlDone, app`nextDlId, app`downloads
    ensures app.Valid()
    ensures tracks == [] ==>
              && app.status == "no tracks found" && jobs == []
              && app.downloads == old(app.downloads) && app.nextDlId == old(app.nextDlId)
              && app.dlStarted == old(app.dlStarted) && app.dlTotal == old(app.dlTotal) && app.dlDone == old(app.dlDone)
    ensures tracks != [] ==>
              && app.status == "dl " + NatToString(|tracks|) + " tracks"
              && app.dlStarted == Some(now) && app.dlTotal == |tracks| && app.dlDone == 0
              && app.nextDlId == old(app.nextDlId) + |tracks|
              && app.downloads == Batch(tracks, old(app.nextDlId)) + old(app.downloads)
              && jobs == Jobs(Ids(old(app.nextDlId), |tracks|), tracks)
  {
    if tracks == [] {
      app.status := "no tracks found";
      return [];
    }
    jobs := StartBatch(app, tracks, now);
  }

  /** `dl_tracks` for a batch with tracks: the counters restart, the rows are queued and the
      tracks handed out. */
  method StartBatch(app: App, tracks: seq<Track>, now: real) returns (jobs: seq<(nat, Track)>)
    requires app.Valid()
    modifies app`status, app`dlStarted, app`dlTotal, app`dlDone, app`nextDlId, app`downloads
    ensures app.Valid()
    ensures app.status == "dl " + NatToString(|tracks|) + " tracks"
    ensures app.dlStarted == Some(now) && app.dlTotal == |tracks| && app.dlDone == 0
    ensures app.nextDlId == old(app.nextDlId) + |tracks|
    ensures app.downloads == Batch(tracks, old(app.nextDlId)) + old(app.downloads)
    ensures jobs == Jobs(Ids(old(app.nextDlId), |tracks|), tracks)
  {
    app.status := "dl " + NatToString(|tracks|) + " tracks";
    app.dlStarted := Some(now);
    app.dlTotal := |tracks|;
    app.dlDone := 0;
    var ids := Enqueue(app, tracks);
    jobs := Pair(tracks, ids);
  }

  /** The numbering loop of `dl_tracks`: each track takes the next id, and its queued row goes
      to the front of the list. */
  method Enqueue(app: App, tracks: seq<Track>) returns (ids: seq<nat>)
    requires app.Valid()
    modifies app`nextDlId, app`downloads
    ensures app.Valid()
    ensures app.nextDlId == old(app.nextDlId) + |tracks|
    ensures app.downloads == Batch(tracks, old(app.nextDlId)) + old(app.downloads)
    ensures ids == Ids(old(app.nextDlId), |tracks|)
  {
    var first := app.nextDlId;
    var before := app.downloads;
    ids := [];
    var rows := before;
    var i := 0;
    while i < |tracks|
      modifies app`nextDlId
      invariant 0 <= i <= |tracks|
      invariant app.nextDlId == first + i
      invariant rows == Batch(tracks[..i], first) + before
      invariant ids == Ids(first, i)
    {
      var id := app.nextDlId;
      app.nextDlId := app.nextDlId + 1;
      ids := ids + [id];
      var row := InitModel(id, tracks[i]);
      assert [row] + rows == Batch(tracks[..i + 1], first) + before by {
        BatchSnoc(tracks, i, first);
        Seqs.ConsAssoc(row, Batch(tracks[..i], first), before);
      }
      rows := [row] + rows;
      i := i + 1;
    }
    Seqs.SliceAll(tracks);
    BatchNewestFirst(tracks, first, before);
    app.downloads := rows;
  }

  /** The spawning loop of `dl_tracks` pairs each track with its id; what it pairs is what
      would be downloaded. */
  method Pair(tracks: seq<Track>, ids: seq<nat>) returns (jobs: seq<(nat, Track)>)
    requires |ids| == |tracks|
    ensures jobs == Jobs(ids, tracks)
  {
    jobs := [];
    var k := 0;
    while k < |tracks|
      invariant 0 <= k <= |tracks|
      invariant jobs == Jobs(ids[..k], tracks[..k])
    {
      Seqs.SliceOfSlice(ids, k);
      Seqs.SliceOfSlice(tracks, k);
      jobs := jobs + [(ids[k], tracks[k])];
      k := k + 1;
    }
    Seqs.SliceAll(ids);
    Seqs.SliceAll(tracks);
  }

  /** The ids a batch of `n` takes from the counter at `first`, in order. */
  function Ids(first: nat, n: nat): (ids: seq<nat>)
    ensures |ids| == n
  {
    if n == 0 then [] else Ids(first, n - 1) + [first + n - 1]
  }

  /** Each id paired with the track at the same position. */
  function Jobs(ids: seq<nat>, tracks: seq<Track>): (jobs: seq<(nat, Track)>)
    requires |ids| == |tracks|
    ensures |jobs| == |tracks|
  {
    if tracks == [] then []
    else
      var n := |tracks| - 1;
      Jobs(ids[..n], tracks[..n]) + [(ids[n], tracks[n])]
  }

  lemma {:induction false} IdsAt(first: nat, n: nat, k: nat)
    requires k < n
    ensures Ids(first, n)[k] == first + k
  {
    if k < n - 1 {
      IdsAt(first, n - 1, k);
    }
  }

  lemma {:induction false} JobsAt(ids: seq<nat>, tracks: seq<Track>, k: nat)
    requires |ids| == |tracks| && k < |tracks|
    ensures Jobs(ids, tracks)[k] == (ids[k], tracks[k])
    decreases |tracks|
  {
    var n := |tracks| - 1;
    if k < n {
      JobsAt(ids[..n], tracks[..n], k);
    }
  }

  /** Every track of a batch is handed out with the id its row got: the k-th track with the
      k-th id after the counter. */
  lemma JobsNumbered(tracks: seq<Track>, first: nat, k: nat)
    requires k < |tracks|
    ensures Jobs(Ids(first, |tracks|), tracks)[k] == (first + k, tracks[k])
  {
    JobsAt(Ids(first, |tracks|), tracks, k);
    IdsAt(first, |tracks|, k);
  }

  /** A batch numbered from the counter goes in front of the list in order, and the counter
      moves past it. */
  lemma {:induction false} BatchNewestFirst(tracks: seq<Track>, first: nat, rows: seq<DlRow>)
    requires NewestFirst(rows, first)
    ensures NewestFirst(Batch(tracks, first) + rows, first + |tracks|)
    decreases |tracks|
  {
    if tracks != [] {
      var n := |tracks| - 1;
      BatchNewestFirst(tracks[..n], first, rows);
      PushNewest(Batch(tracks[..n], first) + rows, first + n, tracks[n]);
      Seqs.ConsAssoc(InitModel(first + n, tracks[n]), Batch(tracks[..n], first), rows);
    }
  }

  /** A batch's rows are its tracks, last first, all queued at zero with consecutive ids. */
  lemma {:induction false} BatchRows(tracks: seq<Track>, first: nat, k: nat)
    requires k < |tracks|
    ensures var r := Batch(tracks, first)[k];
            && r.track == tracks[|tracks| - 1 - k] && r.id == first + |tracks| - 1 - k
            && r.status == Queued && r.progress == 0.0
    decreases |tracks|
  {
    var n := |tracks| - 1;
    if k > 0 {
      BatchRows(tracks[..n], first, k - 1);
    }
  }

  // ---------------------------------------------------------------- events by id

  /** The position of the first row with the id, or the length when there is none. */
  function IndexOfId(rows: seq<DlRow>, id: nat): (k: nat)
    ensures k <= |rows|
    ensures k < |rows| ==> rows[k].id == id
    ensures forall j :: 0 <= j < k ==> rows[j].id != id
  {
    if rows == [] then 0
    else if rows[0].id == id then 0
    else 1 + IndexOfId(rows[1..], id)
  }

  /** The scan both events use: the first row with the id. */
  method FindRow(rows: seq<DlRow>, id: nat) returns (k: nat)
    ensures k == IndexOfId(rows, id)
  {
    k := 0;
    while k < |rows| && rows[k].id != id
      invariant k <= IndexOfId(rows, id)
    {
      k := k + 1;
    }
  }

  /** `dl_progress` on the rows: the row with the id runs at `pct`, whatever its status was. */
  function Progressed(rows: seq<DlRow>, id: nat, pct: real): seq<DlRow>
  {
    var k := IndexOfId(rows, id);
    if k < |rows| then rows[k := rows[k].(progress := pct, status := Active(pct))] else rows
  }

  /** Only the first row with the id changes, and only its progress and status; an unknown id
      changes nothing. */
  lemma ProgressedOnlyTarget(rows: seq<DlRow>, id: nat, pct: real)
    ensures var r := Progressed(rows, id, pct);
            && |r| == |rows|
            && (forall j :: 0 <= j < |rows| && j != IndexOfId(rows, id) ==> r[j] == rows[j])
            && (forall j :: 0 <= j < |rows| ==> r[j].id == rows[j].id && r[j].track == rows[j].track)
            && ((forall j :: 0 <= j < |rows| ==> rows[j].id != id) ==> r == rows)
            && (exists j :: 0 <= j < |rows| && rows[j].id == id) ==>
                 r[IndexOfId(rows, id)].status == Active(pct) && r[IndexOfId(rows, id)].progress == pct
  {
  }

  /** `dl_progress`: updates the row with the id and then the estimate. */
  method DlProgress(app: App, id: nat, pct: real, now: real)
    requires app.Valid()
    modifies app
    ensures app.Valid()
    ensures app.downloads == Progressed(old(app.downloads), id, pct)
    ensures app.eta == EtaText(app.dlStarted, app.dlTotal, app.dlDone, now)
    ensures app.results == old(app.results) && app.dlDir == old(app.dlDir) && app.busy == old(app.busy)
    ensures app.searching == old(app.searching) && app.status == old(app.status) && app.filter == old(app.filter)
    ensures app.logs == old(app.logs) && app.nextDlId == old(app.nextDlId) && app.dlStarted == old(app.dlStarted)
    ensures app.dlTotal == old(app.dlTotal) && app.dlDone == old(app.dlDone)
  {
    var rows := app.downloads;
    var i := FindRow(rows, id);
    if i < |rows| {
      rows := rows[i := rows[i].(progress := pct, status := Active(pct))];
    }
    SameIdsNewestFirst(app.downloads, rows, app.nextDlId);
    app.downloads := rows;
    UpdateEta(app, now);
  }

  /** The rows after a completion event: success finishes the row at 100, failure records the
      message and keeps the progress. */
  function Completed(rows: seq<DlRow>, id: nat, result: Result<string>): seq<DlRow>
  {
    var k := IndexOfId(rows, id);
    if k == |rows| then rows
    else match result
      case Ok(_) => rows[k := rows[k].(progress := 100.0, status := Done)]
      case Err(e) => rows[k := rows[k].(status := Failed(e))]
  }

  /** The `artist - title` label a log block is headed with. */
  function Label(t: Track): string { t.artist + " - " + t.title }

  /** The log block a completion event adds, if the id has a row. */
  function LogEntry(rows: seq<DlRow>, id: nat, result: Result<string>): Option<string>
  {
    var k := IndexOfId(rows, id);
    if k == |rows| then None
    else match result
      case Ok(log) => Some("=== " + Label(rows[k].track) + " ===\n" + log)
      case Err(e) => Some("=== fail: " + Label(rows[k].track) + " ===\n" + e)
  }

  predicate IsFinished(s: DlStatus) { s.Done? || s.Failed? }

  /** How many rows are done or failed. */
  function Finished(rows: seq<DlRow>): (n: nat)
    ensures n <= |rows|
  {
    if rows == [] then 0
    else Finished(rows[..|rows| - 1]) + (if IsFinished(rows[|rows| - 1].status) then 1 else 0)
  }

  /** Replacing one row changes the count by what that row contributes. */
  lemma {:induction false} FinishedUpdate(rows: seq<DlRow>, k: nat, r: DlRow)
    requires k < |rows|
    ensures Finished(rows[k := r]) + (if IsFinished(rows[k].status) then 1 else 0)
            == Finished(rows) + (if IsFinished(r.status) then 1 else 0)
    decreases |rows|
  {
    var n := |rows| - 1;
    var rows' := rows[k := r];
    if k < n {
      assert rows'[..n] == rows[..n][k := r];
      FinishedUpdate(rows[..n], k, r);
    } else {
      assert rows'[..n] == rows[..n];
    }
  }

  /** A completion event finishes one more row when its row was still queued or running, and
      leaves the count alone otherwise; no row is lost or reordered. */
  lemma CompletedCount(rows: seq<DlRow>, id: nat, result: Result<string>)
    ensures var k := IndexOfId(rows, id);
            && |Completed(rows, id, result)| == |rows|
            && (forall j :: 0 <= j < |rows| ==> Completed(rows, id, result)[j].id == rows[j].id)
            && Finished(Completed(rows, id, result))
               == Finished(rows) + (if k < |rows| && !IsFinished(rows[k].status) then 1 else 0)
  {
    var k := IndexOfId(rows, id);
    if k < |rows| {
      FinishedUpdate(rows, k, Completed(rows, id, result)[k]);
    }
  }

  lemma CompletedNewestFirst(rows: seq<DlRow>, id: nat, result: Result<string>, next: nat)
    requires NewestFirst(rows, next)
    ensures NewestFirst(Completed(rows, id, result), next)
  {
    CompletedCount(rows, id, result);
    SameIdsNewestFirst(rows, Completed(rows, id, result), next);
  }

  /** What a completion event records for a known id: success keeps the log under the track's
      label, failure the message; the row's progress stays unless the download succeeded. */
  lemma CompletedRow(rows: seq<DlRow>, id: nat, result: Result<string>)
    requires IndexOfId(rows, id) < |rows|
    ensures var k := IndexOfId(rows, id);
            var r := Completed(rows, id, result)[k];
            && r.track == rows[k].track && r.id == id
            && (result.Ok? ==>
                  && r.status == Done && r.progress == 100.0
                  && LogEntry(rows, id, result) == Some("=== " + Label(r.track) + " ===\n" + result.value))
            && (result.Err? ==>
                  && r.status == Failed(result.error) && r.progress == rows[k].progress
                  && LogEntry(rows, id, result) == Some("=== fail: " + Label(r.track) + " ===\n" + result.error))
  {
  }

  /** The first half of `dl_done`: the row with the id takes the outcome, and the log block
      for it is made. */
  method Record(rows: seq<DlRow>, id: nat, result: Result<string>) returns (rows': seq<DlRow>, entry: Option<string>)
    ensures rows' == Completed(rows, id, result) && entry == LogEntry(rows, id, result)
  {
    rows' := rows;
    entry := None;
    var i := FindRow(rows, id);
    if i < |rows| {
      var row := rows[i];
      var heading := row.track.artist + " - " + row.track.title;
      match result
      case Ok(log) =>
        rows' := rows[i := row.(progress := 100.0, status := Done)];
        entry := Some("=== " + heading + " ===\n" + log);
      case Err(e) =>
        rows' := rows[i := row.(status := Failed(e))];
        entry := Some("=== fail: " + heading + " ===\n" + e);
    }
  }

  /** The count `dl_done` makes of the rows that are done or failed. */
  method CountFinished(rows: seq<DlRow>) returns (done: nat)
    ensures done == Finished(rows)
  {
    done := 0;
    var j := 0;
    while j < |rows|
      invariant 0 <= j <= |rows|
      invariant done == Finished(rows[..j])
    {
      assert rows[..j + 1][..j] == rows[..j];
      if rows[j].status.Done? || rows[j].status.Failed? {
        done := done + 1;
      }
      j := j + 1;
    }
    assert rows[..j] == rows;
  }

  /** `dl_done`: records the outcome on the row, counts the finished rows of the whole list,
      keeps the log block, and either closes the batch or shows `done/total` and refreshes
      the estimate. */
  method DlDone(app: App, id: nat, result: Result<string>, now: real)
    requires app.Valid()
    modifies app
    ensures app.Valid()
    ensures app.downloads == Completed(old(app.downloads), id, result)
    ensures app.logs == old(app.logs) + (match LogEntry(old(app.downloads), id, result)
                                           case Some(e) => [e]
                                           case None => [])
    ensures app.dlDone == Finished(app.downloads)
    ensures app.dlDone == |app.downloads| ==>
              && !app.busy && app.eta == "" && app.dlStarted == None
              && app.status == "done (" + NatToString(|app.downloads|) + " tracks)"
    ensures app.dlDone != |app.downloads| ==>
              && app.busy == old(app.busy) && app.dlStarted == old(app.dlStarted)
              && app.status == NatToString(app.dlDone) + "/" + NatToString(|app.downloads|)
              && app.eta == EtaText(app.dlStarted, app.dlTotal, app.dlDone, now)
    ensures app.results == old(app.results) && app.dlDir == old(app.dlDir) && app.searching == old(app.searching)
    ensures app.filter == old(app.filter) && app.nextDlId == old(app.nextDlId) && app.dlTotal == old(app.dlTotal)
  {
    var rows, entry := Record(app.downloads, id, result);
    CompletedNewestFirst(app.downloads, id, result, app.nextDlId);
    var total := |rows|;
    var done := CountFinished(rows);
    app.downloads := rows;

    if entry.Some? {
      app.logs := app.logs + [entry.value];
    }
    Tally(app, done, total, now);
  }

  /** The end of `dl_done`: stores the count, then either closes the batch or shows
      `done/total` and refreshes the estimate. */
  method Tally(app: App, done: nat, total: nat, now: real)
    modifies app
    ensures app.dlDone == done
    ensures done == total ==>
              && !app.busy && app.eta == "" && app.dlStarted == None
              && app.status == "done (" + NatToString(total) + " tracks)"
    ensures done != total ==>
              && app.busy == old(app.busy) && app.dlStarted == old(app.dlStarted)
              && app.status == NatToString(done) + "/" + NatToString(total)
              && app.eta == EtaText(app.dlStarted, app.dlTotal, done, now)
    ensures app.results == old(app.results) && app.downloads == old(app.downloads) && app.logs == old(app.logs)
    ensures app.dlDir == old(app.dlDir) && app.searching == old(app.searching) && app.filter == old(app.filter)
    ensures app.nextDlId == old(app.nextDlId) && app.dlTotal == old(app.dlTotal)
  {
    app.dlDone := done;
    if done == total {
      app.busy := false;
      app.status := "done (" + NatToString(total) + " tracks)";
      app.eta := "";
      app.dlStarted := None;
    } else {
      app.status := NatToString(done) + "/" + NatToString(total);
      UpdateEta(app, now);
    }
  }

  // ---------------------------------------------------------------- remaining time

  /** `total - done`, stopping at zero. */
  function SaturatingSub(total: nat, done: nat): nat { if total >= done then total - done else 0 }

  /** The seconds the estimate shows: the mean time per finished download times the
      remaining count, truncated to whole seconds (the clock cannot go backwards, so a start
      in the future counts as no time elapsed). */
  function EtaSeconds(started: real, total: nat, done: nat, now: real): nat
    requires 0 < done < total
  {
    var elapsed := if now >= started then now - started else 0.0;
    SaturatingU64(elapsed / done as real * (total - done) as real)
  }

  /** Seconds shown as `eta MM:SS`. */
  function Clock(secs: nat): string
  {
    "eta " + Pad2(secs / 60) + ":" + Pad2(secs % 60)
  }

  /** The estimate: nothing before a batch starts, before the first download finishes, or
      once none remains; otherwise the estimated seconds as minutes and seconds. */
  function EtaText(started: Option<real>, total: nat, done: nat, now: real): string
  {
    match started
    case None => ""
    case Some(s) =>
      if SaturatingSub(total, done) == 0 || done == 0 then "" else Clock(EtaSeconds(s, total, done, now))
  }

  /** `update_eta`. */
  method UpdateEta(app: App, now: real)
    modifies app
    ensures app.eta == EtaText(app.dlStarted, app.dlTotal, app.dlDone, now)
    ensures app.results == old(app.results) && app.downloads == old(app.downloads) && app.dlDir == old(app.dlDir)
    ensures app.searching == old(app.searching) && app.busy == old(app.busy) && app.status == old(app.status)
    ensures app.filter == old(app.filter) && app.logs == old(app.logs) && app.nextDlId == old(app.nextDlId)
    ensures app.dlStarted == old(app.dlStarted) && app.dlTotal == old(app.dlTotal) && app.dlDone == old(app.dlDone)
  {
    if app.dlStarted.None? {
      app.eta := "";
      return;
    }
    var started := app.dlStarted.value;
    var remaining := SaturatingSub(app.dlTotal, app.dlDone);
    if remaining == 0 || app.dlDone == 0 {
      app.eta := "";
      return;
    }
    var elapsed := if now >= started then now - started else 0.0;
    var perTrack := elapsed / app.dlDone as real;
    var secsLeft := SaturatingU64(perTrack * remaining as real);
    assert secsLeft == EtaSeconds(started, app.dlTotal, app.dlDone, now);
    var m := secsLeft / 60;
    var s := secsLeft % 60;
    app.eta := "eta " + Pad2(m) + ":" + Pad2(s);
  }

  /** The estimate is empty exactly when there is no batch, no finished download, or nothing
      left to do. */
  lemma EtaEmpty(started: Option<real>, total: nat, done: nat, now: real)
    ensures EtaText(started, total, done, now) == "" <==> started.None? || done == 0 || total <= done
  {
  }

  /** A shown estimate reads back as minutes, a colon and two digits of seconds that make up
      the estimated seconds. */
  lemma {:induction false} EtaReadsBack(s: real, total: nat, done: nat, now: real)
    requires 0 < done < total
    ensures var text := EtaText(Some(s), total, done, now);
            var secs := EtaSeconds(s, total, done, now);
            && text[..4] == "eta " && text[|text| - 3] == ':'
            && AllDigits(text[4..|text| - 3]) && AllDigits(text[|text| - 2..])
            && ParseDigits(text[4..|text| - 3]) * 60 + ParseDigits(text[|text| - 2..]) == secs
  {
    var secs := EtaSeconds(s, total, done, now);
    var m, sec := Pad2(secs / 60), Pad2(secs % 60);
    var text := "eta " + m + ":" + sec;
    assert EtaText(Some(s), total, done, now) == Clock(secs) == text;
    assert |sec| == 2;
    assert text[4..|text| - 3] == m;
    assert text[|text| - 2..] == sec;
    Pad2Value(secs / 60);
    Pad2Value(secs % 60);
  }

  /** One of four downloads done after ten seconds leaves thirty seconds. */
  lemma EtaExample()
    ensures EtaText(Some(0.0), 4, 1, 10.0) == "eta 00:30"
  {
    assert EtaSeconds(0.0, 4, 1, 10.0) == 30 by {
      assert SaturatingU64(10.0 / 1 as real * 3 as real) == 30;
    }
    ThirtySeconds();
  }

  lemma ThirtySeconds()
    ensures Clock(30) == "eta 00:30"
  {
    assert Pad2(0) == "00";
    assert Pad2(30) == NatToString(30);
    assert NatToString(30) == NatToString(3) + [DigitChar(0)];
  }

  // ---------------------------------------------------------------- the estimate across batches

  /** `dl_done` stores the finished count of the whole list, but `dl_total` is the size of the
      current batch. After a first batch of two has finished, a second batch of two with one
      download done still has one to go, yet the estimate is empty. */
  lemma EtaLostInLaterBatch(t: Track)
    ensures var rows := [DlRow(3, t, Done, 100.0), DlRow(2, t, Queued, 0.0),
                         DlRow(1, t, Done, 100.0), DlRow(0, t, Done, 100.0)];
            && Finished(rows[..2]) == 1
            && Finished(rows) == 3
            && EtaText(Some(0.0), 2, Finished(rows), 10.0) == ""
  {
    var rows := [DlRow(3, t, Done, 100.0), DlRow(2, t, Queued, 0.0),
                 DlRow(1, t, Done, 100.0), DlRow(0, t, Done, 100.0)];
    assert rows[..2][..1] == rows[..1] && rows[..1][..0] == [];
    assert rows[..3][..2] == rows[..2] && rows[..4] == rows && rows[..4][..3] == rows[..3];
  }

  /** The estimate the code evidently means: the current batch is the `total` rows at the
      front of the list, and only its finished rows count. */
  function BatchEtaText(started: Option<real>, total: nat, rows: seq<DlRow>, now: real): string
  {
    EtaText(started, total, Finished(rows[..if total <= |rows| then total else |rows|]), now)
  }

  /** While a started batch has both finished and unfinished rows, the batch estimate is shown,
      and it counts the batch's own finished rows. */
  lemma BatchEtaShown(started: real, total: nat, rows: seq<DlRow>, now: real)
    requires total <= |rows| && 0 < Finished(rows[..total]) < total
    ensures var text := BatchEtaText(Some(started), total, rows, now);
            && text == Clock(EtaSeconds(started, total, Finished(rows[..total]), now))
            && |text| >= 9 && text[..4] == "eta "
  {
  }

  /** The example above, counted by batch: one of two done after ten seconds leaves ten. */
  lemma BatchEtaExample(t: Track)
    ensures BatchEtaText(Some(0.0), 2, [DlRow(3, t, Done, 100.0), DlRow(2, t, Queued, 0.0),
                                        DlRow(1, t, Done, 100.0), DlRow(0, t, Done, 100.0)], 10.0)
            == "eta 00:10"
  {
    var rows := [DlRow(3, t, Done, 100.0), DlRow(2, t, Queued, 0.0),
                 DlRow(1, t, Done, 100.0), DlRow(0, t, Done, 100.0)];
    assert rows[..2][..1] == rows[..1] && rows[..1][..0] == [];
    assert Finished(rows[..2]) == 1;
    assert SaturatingU64(10.0 / 1 as real * 1 as real) == 10;
    assert Pad2(0) == "00";
    assert Pad2(10) == NatToString(10);
    assert NatToString(10) == NatToString(1) + [DigitChar(0)];
  }
}
