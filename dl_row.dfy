/** One row of the download list (`src/ui/dl_row.rs`): the record, and what the row shows for
    each download status. The row has no messages of its own; only the download bookkeeping
    changes it. */
module DlRows {
  import opened Text
  import opened Models

  datatype DlRow = DlRow(id: nat, track: Track, status: DlStatus, progress: real)

  /** `init_model`: a new row is queued at zero progress. */
  function InitModel(id: nat, track: Track): (r: DlRow)
    ensures r.id == id && r.track == track
    ensures r.status == Queued && r.progress == 0.0
  {
    DlRow(id, track, Queued, 0.0)
  }

  /** The nearest integer to a non-negative value, ties to the even one (how `{:.0}` rounds). */
  function RoundHalfEven(x: real): (k: nat)
    requires x >= 0.0
    ensures k as real - 0.5 <= x <= k as real + 0.5
  {
    var f := x.Floor;
    var frac := x - f as real;
    if frac < 0.5 then f
    else if frac > 0.5 then f + 1
    else if f % 2 == 0 then f else f + 1
  }

  /** `format!("{p:.0}")`: the rounded magnitude, with a minus sign for a negative value. */
  function FormatWhole(p: real): (s: string)
    ensures |s| >= 1
  {
    if p < 0.0 then "-" + NatToString(RoundHalfEven(-p)) else NatToString(RoundHalfEven(p))
  }

  /** The status label. */
  function StatusLabel(s: DlStatus): string
  {
    match s
    case Queued => "queued"
    case Active(p) => FormatWhole(p) + "%"
    case Done => "done"
    case Failed(e) => "fail: " + e
  }

  /** The style class of the status label. */
  function CssClass(s: DlStatus): string
  {
    match s
    case Done => "success"
    case Failed(_) => "error"
    case Active(_) => "accent"
    case Queued => "dim-label"
  }

  /** The progress bar shows only while the download runs. */
  predicate BarVisible(s: DlStatus) { s.Active? }

  /** The bar's fraction: a progress in percent between 0 and 100 fills between none and all
      of the bar, in proportion. */
  function BarFraction(r: DlRow): (f: real)
    ensures f * 100.0 == r.progress
    ensures 0.0 <= r.progress <= 100.0 ==> 0.0 <= f <= 1.0
  {
    r.progress / 100.0
  }

  /** An active row's label is a whole percentage within one half of the progress value. */
  lemma ActiveLabelNearest(p: real)
    requires p >= 0.0
    ensures exists k: nat :: StatusLabel(Active(p)) == NatToString(k) + "%" && k as real - 0.5 <= p <= k as real + 0.5
  {
    var k := RoundHalfEven(p);
    assert StatusLabel(Active(p)) == NatToString(k) + "%";
  }

  /** The label tells the kind of status apart, and a failure's message is in it. */
  lemma {:induction false} LabelDistinguishes(s1: DlStatus, s2: DlStatus)
    requires StatusLabel(s1) == StatusLabel(s2)
    ensures s1.Queued? == s2.Queued? && s1.Active? == s2.Active? && s1.Done? == s2.Done?
    ensures s1.Failed? <==> s2.Failed?
    ensures s1.Failed? ==> s1 == s2
  {
    if s1.Active? { ActiveLabelShape(s1.pct); }
    if s2.Active? { ActiveLabelShape(s2.pct); }
    if s1.Failed? { assert StatusLabel(s1)[0] == 'f'; }
    if s2.Failed? { assert StatusLabel(s2)[0] == 'f'; }
    assert "queued"[0] == 'q' && "queued"[5] == 'd' && "done"[0] == 'd' && "done"[3] == 'e';
    if s1.Failed? && s2.Failed? {
      var a, b := StatusLabel(s1), StatusLabel(s2);
      assert s1.msg == a[6..] && s2.msg == b[6..];
    }
  }

  lemma ActiveLabelShape(p: real)
    ensures var l := StatusLabel(Active(p));
            |l| >= 2 && l[|l| - 1] == '%' && (l[0] == '-' || IsDigit(l[0]))
  {
    var w := FormatWhole(p);
    assert StatusLabel(Active(p)) == w + "%";
  }

  /** The class each status selects: the accent exactly while the bar is visible, success
      exactly when done, error exactly when failed. */
  lemma BarMatchesClass(s: DlStatus)
    ensures BarVisible(s) <==> CssClass(s) == "accent"
    ensures CssClass(s) == "success" <==> s.Done?
    ensures CssClass(s) == "error" <==> s.Failed?
  {
  }

  // ---------------------------------------------------------------- the label's classes

  /** The style classes of the status label once it has shown the statuses of `shown` in
      turn, as the row is written: `add_css_class` under `#[watch]` adds the class of every
      status shown and removes none. */
  function LabelClasses(shown: seq<DlStatus>): (cs: set<string>)
    ensures forall c :: c in cs <==> exists i :: 0 <= i < |shown| && CssClass(shown[i]) == c
    decreases |shown|
  {
    if shown == [] then {}
    else
      var init := shown[..|shown| - 1];
      assert forall i :: 0 <= i < |init| ==> init[i] == shown[i];
      LabelClasses(init) + {CssClass(shown[|shown| - 1])}
  }

  /** A download that ran and finished leaves its label with the queued and the running
      classes beside "success", though its bar is hidden: which colour shows is left to the
      order of the theme's style sheet. */
  lemma ClassesAccumulate(p: real)
    ensures var shown := [Queued, Active(p), Done];
            && LabelClasses(shown) == {"dim-label", "accent", "success"}
            && !BarVisible(shown[2])
  {
    var shown := [Queued, Active(p), Done];
    assert CssClass(shown[0]) == "dim-label" && CssClass(shown[1]) == "accent" && CssClass(shown[2]) == "success";
    forall c | c in LabelClasses(shown) ensures c in {"dim-label", "accent", "success"} {
      var i :| 0 <= i < |shown| && CssClass(shown[i]) == c;
    }
  }

  /** The intended styling: the label carries the class of the status it shows now, and no
      other. */
  function CurrentClasses(shown: seq<DlStatus>): (cs: set<string>)
    ensures shown == [] ==> cs == {}
    ensures shown != [] ==> |cs| == 1
    ensures shown != [] ==>
      var s := shown[|shown| - 1];
      && ("accent" in cs <==> BarVisible(s))
      && ("success" in cs <==> s.Done?)
      && ("error" in cs <==> s.Failed?)
  {
    if shown == [] then {}
    else
      BarMatchesClass(shown[|shown| - 1]);
      {CssClass(shown[|shown| - 1])}
  }
}
