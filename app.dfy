/** The application state of `src/ui/app.rs` that the search and download handlers read and
    change: the result rows, the download rows, the status line and the download counters.
    Widgets, dialogs and the Spotify connection state are not part of this model. */
module AppState {
  import opened Wrappers
  import opened Models
  import opened DlRows
  import opened ResultRows

  class App {
    var results: seq<ResultRow>
    var downloads: seq<DlRow>
    var dlDir: string
    var searching: bool
    var busy: bool
    var status: string
    /** The index chosen in the filter drop-down: 0 All, 1 Albums, 2 Artists, 3 Tracks. */
    var filter: nat
    var logs: seq<string>
    var nextDlId: nat
    var eta: string
    /** When the current batch started, in seconds on a monotonic clock. */
    var dlStarted: Option<real>
    var dlTotal: nat
    var dlDone: nat

    predicate Valid()
      reads this
    {
      NewestFirst(downloads, nextDlId)
    }

    /** The state the window starts with. */
    constructor (dlDir: string)
      ensures Valid()
      ensures results == [] && downloads == [] && this.dlDir == dlDir
      ensures !searching && !busy && status == "" && filter == 0 && logs == []
      ensures nextDlId == 0 && eta == "" && dlStarted == None && dlTotal == 0 && dlDone == 0
    {
      results, downloads, this.dlDir := [], [], dlDir;
      searching, busy, status, filter, logs := false, false, "", 0, [];
      nextDlId, eta, dlStarted, dlTotal, dlDone := 0, "", None, 0, 0;
    }
  }

  /** Download rows are newest first: their ids fall strictly from the front, and every id
      was handed out before `next`. */
  predicate NewestFirst(rows: seq<DlRow>, next: nat)
  {
    && (forall i, j :: 0 <= i < j < |rows| ==> rows[i].id > rows[j].id)
    && (forall i :: 0 <= i < |rows| ==> rows[i].id < next)
  }

  /** A row with the next id pushed to the front keeps the order, and the counter moves on. */
  lemma PushNewest(rows: seq<DlRow>, next: nat, t: Track)
    requires NewestFirst(rows, next)
    ensures NewestFirst([InitModel(next, t)] + rows, next + 1)
  {
    var rs := [InitModel(next, t)] + rows;
    forall i, j | 0 <= i < j < |rs|
      ensures rs[i].id > rs[j].id
    {
      assert rs[j] == rows[j - 1];
      if i > 0 {
        assert rs[i] == rows[i - 1];
      }
    }
  }

  /** Ids in a newest-first list are all different. */
  lemma NewestFirstDistinct(rows: seq<DlRow>, next: nat, i: nat, j: nat)
    requires NewestFirst(rows, next) && i < |rows| && j < |rows| && i != j
    ensures rows[i].id != rows[j].id
  {
  }

  /** Changing a row's progress or status, never its id, keeps the order. */
  lemma SameIdsNewestFirst(rows: seq<DlRow>, rows': seq<DlRow>, next: nat)
    requires NewestFirst(rows, next) && |rows'| == |rows|
    requires forall i :: 0 <= i < |rows| ==> rows'[i].id == rows[i].id
    ensures NewestFirst(rows', next)
  {
  }
}
