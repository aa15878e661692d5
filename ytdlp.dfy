/** The per-track pipeline of `src/backend/ytdlp.rs`: run yt-dlp for the best search match,
    read its output for progress and the produced file, fetch the cover, tag the file with
    ffmpeg and give it its final name. Processes, the file system and the network are given
    as an environment of outcomes; the model returns the file-system effects it asks for. */
module Ytdlp {
  import opened Wrappers
  import opened Text
  import opened Models
  import opened Paths
  import opened Seqs
  import Deezer
  import opened FormUrl

  // ---------------------------------------------------------------- progress lines

  const DOWNLOAD_TAG: string := "[download]"

  /** Rust's `find` for the first word ending in '%': its index, or the number of words. */
  function FirstPercentWord(ws: seq<string>): (k: nat)
    ensures k <= |ws|
    ensures k < |ws| ==> EndsWith(ws[k], "%")
    ensures forall j :: 0 <= j < k ==> !EndsWith(ws[j], "%")
  {
    if ws == [] then 0 else if EndsWith(ws[0], "%") then 0 else 1 + FirstPercentWord(ws[1..])
  }

  /** `parse_pct`: in a line mentioning "[download]", the first word ending in '%', stripped of
      every trailing '%', read as a number. */
  function ParsePct(line: string): (r: Option<real>)
    ensures !Contains(line, DOWNLOAD_TAG) ==> r.None?
  {
    if !Contains(line, DOWNLOAD_TAG) then None
    else
      var ws := Words(line);
      var k := FirstPercentWord(ws);
      if k == |ws| then None else ParseFloat(TrimEndChar(ws[k], '%'))
  }

  /** A progress line as yt-dlp prints it, "[download]", blanks, "<n>.<d>%", and whatever
      follows, reads back as n + d/10, whatever the rest of the line holds. */
  lemma ParsePctReadsBack(ws: string, n: nat, d: nat, rest: string)
    requires d < 10
    requires ws != [] && forall i :: 0 <= i < |ws| ==> IsWhitespace(ws[i])
    requires rest == [] || IsWhitespace(rest[0])
    ensures ParsePct(DOWNLOAD_TAG + ws + PctWord(n, d) + rest) == Some(n as real + d as real / 10.0)
  {
    var line := DOWNLOAD_TAG + ws + PctWord(n, d) + rest;
    PctLineWords(ws, n, d, rest);
    TenthsWord(n, d);
    TagWord();
    assert FirstPercentWord(Words(line)) == 1;
    ParseTenths(n, d);
  }

  lemma PctLineWords(ws: string, n: nat, d: nat, rest: string)
    requires d < 10
    requires ws != [] && forall i :: 0 <= i < |ws| ==> IsWhitespace(ws[i])
    requires rest == [] || IsWhitespace(rest[0])
    ensures var line := DOWNLOAD_TAG + ws + PctWord(n, d) + rest;
            && StartsWith(line, DOWNLOAD_TAG)
            && Words(line) == [DOWNLOAD_TAG, PctWord(n, d)] + Words(rest)
  {
    TagWord();
    TenthsWord(n, d);
    TwoWords(DOWNLOAD_TAG, ws, PctWord(n, d), rest);
  }

  /** A word, blanks, a word and a rest that starts with a blank: two words, then the rest's. */
  lemma TwoWords(w1: string, ws: string, w2: string, rest: string)
    requires w1 != [] && NoWhitespace(w1) && w2 != [] && NoWhitespace(w2)
    requires ws != [] && forall i :: 0 <= i < |ws| ==> IsWhitespace(ws[i])
    requires rest == [] || IsWhitespace(rest[0])
    ensures StartsWith(w1 + ws + w2 + rest, w1)
    ensures Words(w1 + ws + w2 + rest) == [w1, w2] + Words(rest)
  {
    var tail := ws + (w2 + rest);
    assert tail[0] == ws[0];
    WordsToken(w1, tail);
    WordsSkipRun(ws, w2 + rest);
    WordsToken(w2, rest);
    Assoc4(w1, ws, w2, rest);
    ConsTwo(w1, w2, Words(rest));
    PrefixOf(w1, tail);
  }

  lemma PrefixOf(p: string, s: string)
    ensures StartsWith(p + s, p)
  {
    assert (p + s)[..|p|] == p;
  }

  lemma TagWord()
    ensures DOWNLOAD_TAG != [] && NoWhitespace(DOWNLOAD_TAG) && !EndsWith(DOWNLOAD_TAG, "%")
  {
    assert DOWNLOAD_TAG[|DOWNLOAD_TAG| - 1] == ']';
  }

  /** A percentage with one decimal, as yt-dlp prints it. */
  function PctWord(n: nat, d: nat): string
    requires d < 10
  {
    Tenths(n, d) + "%"
  }

  /** "<n>.<d>%" is one word ending in '%'; without its '%' it is the number again. */
  lemma TenthsWord(n: nat, d: nat)
    requires d < 10
    ensures var tok := PctWord(n, d);
            && tok != [] && NoWhitespace(tok) && EndsWith(tok, "%")
            && TrimEndChar(tok, '%') == Tenths(n, d)
  {
    var t := Tenths(n, d);
    var tok := t + "%";
    var ns := NatToString(n);
    forall j | 0 <= j < |tok| ensures !IsWhitespace(tok[j]) {
      if j < |ns| { assert tok[j] == ns[j] && IsDigit(ns[j]); }
    }
    assert tok[..|tok| - 1] == t;
    assert t[|t| - 1] == DigitChar(d);
  }

  /** yt-dlp's usual line. */
  lemma ParsePctExample()
    ensures ParsePct(DOWNLOAD_TAG + "  " + "42.0%" + " of 3.1MiB") == Some(42.0)
  {
    assert NatToString(42) == NatToString(4) + [DigitChar(2)];
    assert PctWord(42, 0) == "42.0%";
    ParsePctReadsBack("  ", 42, 0, " of 3.1MiB");
  }

  // ---------------------------------------------------------------- where the file goes

  /** `track_dir`: an album track with both an artist and an album goes into the folder
      "<artist> - <album>" joined to the base; any other track goes into the base itself.
      As with `Path::join`, an artist starting with '/' makes the folder absolute, and the
      base is dropped. */
  function TrackDir(base: string, t: Track): (dir: string)
    ensures UsesAlbumFolder(t) ==> dir == Join(base, t.artist + " - " + t.album)
    ensures UsesAlbumFolder(t) && !StartsWith(t.artist, "/") ==>
              StartsWith(dir, base) && EndsWith(dir, " - " + t.album) && dir != base
    ensures UsesAlbumFolder(t) && StartsWith(t.artist, "/") ==> dir == t.artist + " - " + t.album
    ensures !UsesAlbumFolder(t) ==> dir == base
  {
    if UsesAlbumFolder(t) then
      var name := t.artist + " - " + t.album;
      assert StartsWith(name, "/") <==> StartsWith(t.artist, "/") by {
        assert name[0] == t.artist[0];
      }
      assert EndsWith(name, " - " + t.album) by { assert name == t.artist + (" - " + t.album); }
      Join(base, name)
    else base
  }

  predicate UsesAlbumFolder(t: Track) { t.isAlbumTrack && t.album != [] && t.artist != [] }

  /** An artist name starting with '/' takes the download out of the base: the album folder
      is the absolute "<artist> - <album>", and the final file name, absolute as well,
      replaces even that folder. */
  lemma AbsoluteArtistLeavesBase()
    ensures var t := Track("T", "/x", "A", 0.0, None, "", true);
            && TrackDir("/home/u/Music", t) == "/x - A"
            && FinalPath("/home/u/Music", t) == "/x - T.mp3"
  {
    var t := Track("T", "/x", "A", 0.0, None, "", true);
    assert StartsWith(t.artist, "/");
    var name := t.artist + " - " + t.title + ".mp3";
    assert name == "/x - T.mp3";
    assert StartsWith(name, "/");
  }

  /** The name the downloaded file ends up with: "<artist> - <title>.mp3" in the track's folder. */
  function FinalPath(base: string, t: Track): string
  {
    Join(TrackDir(base, t), t.artist + " - " + t.title + ".mp3")
  }

  /** yt-dlp's output template and search query. */
  function OutputTemplate(dir: string): string { Join(dir, "%(title)s.%(ext)s") }

  function SearchQuery(t: Track): string { "ytsearch1:" + YtQuery(t) }

  /** The yt-dlp command line: extract audio as best-quality mp3 without embedding anything,
      print the final file path, one progress line per update, output into the track's folder,
      and the search query last. */
  function YtdlpArgs(t: Track, dir: string): (args: seq<string>)
    ensures |args| == 16 && args[14] == OutputTemplate(dir) && args[15] == SearchQuery(t)
  {
    ["-x", "--audio-format", "mp3", "--audio-quality", "0",
     "--no-embed-metadata", "--no-embed-thumbnail",
     "--no-warnings", "--no-playlist",
     "--newline", "--progress",
     "--print", "after_move:filepath",
     "-o", OutputTemplate(dir)]
    + [SearchQuery(t)]
  }

  // ---------------------------------------------------------------- reading yt-dlp's output

  /** Each line after `prefix`, followed by a line feed. */
  function Lines(prefix: string, ls: seq<string>): string
  {
    if ls == [] then [] else prefix + ls[0] + "\n" + Lines(prefix, ls[1..])
  }

  lemma {:induction false} LinesSnoc(prefix: string, ls: seq<string>, l: string)
    ensures Lines(prefix, ls + [l]) == Lines(prefix, ls) + (prefix + l + "\n")
    decreases |ls|
  {
    if ls == [] {
      assert ls + [l] == [l];
      assert [l][1..] == [];
    } else {
      assert (ls + [l])[0] == ls[0] && (ls + [l])[1..] == ls[1..] + [l];
      LinesSnoc(prefix, ls[1..], l);
    }
  }

  lemma StdoutLinesSnoc(ls: seq<string>, l: string)
    ensures Lines("", ls + [l]) == Lines("", ls) + l + "\n"
  {
    LinesSnoc("", ls, l);
    assert "" + l == l;
  }

  /** The stdout part of the log splits back into the lines it was built from. */
  lemma {:induction false} StdoutLogSplits(ls: seq<string>)
    requires forall i :: 0 <= i < |ls| ==> '\n' !in ls[i]
    ensures Split(Lines("", ls), '\n') == ls + [""]
  {
    LinesJoin(ls);
    JoinSplit(ls + [""], '\n');
  }

  lemma {:induction false} LinesJoin(ls: seq<string>)
    ensures Lines("", ls) == JoinWith(ls + [""], '\n')
    decreases |ls|
  {
    if ls != [] {
      LinesJoin(ls[1..]);
      assert (ls + [""])[1..] == ls[1..] + [""];
      assert "" + ls[0] + "\n" + Lines("", ls[1..]) == ls[0] + ['\n'] + JoinWith(ls[1..] + [""], '\n');
    }
  }

  /** The progress value a stdout line carries, if any. */
  function PctOf(line: string): seq<real>
  {
    match ParsePct(line)
    case Some(p) => [p]
    case None => []
  }

  /** The progress values the stdout lines carry, in order. */
  function Progress(ls: seq<string>): (ps: seq<real>)
    ensures |ps| <= |ls|
  {
    if ls == [] then [] else Progress(ls[..|ls| - 1]) + PctOf(ls[|ls| - 1])
  }

  /** A stdout line naming a produced file: trimmed, it ends in ".mp3" and exists. */
  function Produced(line: string, present: string -> bool): Option<string>
  {
    var t := Trim(line);
    if EndsWith(t, ".mp3") && present(t) then Some(t) else None
  }

  /** The produced file: the last line that names one. */
  function LastMp3(ls: seq<string>, present: string -> bool): Option<string>
  {
    if ls == [] then None
    else if Produced(ls[|ls| - 1], present).Some? then Produced(ls[|ls| - 1], present)
    else LastMp3(ls[..|ls| - 1], present)
  }

  /** The two `while let` loops of `download`: every stdout line goes into the log and may
      carry a progress value or name the produced file; every stderr line follows, marked. */
  method ScanOutput(stdout: seq<string>, stderr: seq<string>, present: string -> bool)
    returns (log: string, mp3: Option<string>, pcts: seq<real>)
    ensures log == Lines("", stdout) + Lines("[stderr] ", stderr)
    ensures mp3 == LastMp3(stdout, present)
    ensures pcts == Progress(stdout)
  {
    log, mp3, pcts := ScanStdout(stdout, present);
    log := ScanStderr(stderr, log);
  }

  method ScanStdout(stdout: seq<string>, present: string -> bool)
    returns (log: string, mp3: Option<string>, pcts: seq<real>)
    ensures log == Lines("", stdout)
    ensures mp3 == LastMp3(stdout, present)
    ensures pcts == Progress(stdout)
  {
    log, mp3, pcts := "", None, [];
    ghost var done: seq<string> := [];
    var i := 0;
    while i < |stdout|
      invariant 0 <= i <= |stdout| && done == stdout[..i]
      invariant log == Lines("", done) && mp3 == LastMp3(done, present) && pcts == Progress(done)
    {
      log, mp3, pcts := ScanLine(done, log, mp3, pcts, stdout[i], present);
      SliceSnoc(stdout, i);
      done := done + [stdout[i]];
      i := i + 1;
    }
    assert stdout[..i] == stdout;
  }

  /** The body of the stdout loop for one line: it goes into the log; a progress value is
      kept; a line that, trimmed, ends in ".mp3" and names an existing file becomes the
      produced file. */
  method ScanLine(ghost done: seq<string>, log: string, mp3: Option<string>, pcts: seq<real>,
                  line: string, present: string -> bool)
    returns (log': string, mp3': Option<string>, pcts': seq<real>)
    requires log == Lines("", done) && mp3 == LastMp3(done, present) && pcts == Progress(done)
    ensures log' == Lines("", done + [line])
    ensures mp3' == LastMp3(done + [line], present)
    ensures pcts' == Progress(done + [line])
  {
    StdoutStep(done, line, present);
    log' := log + line + "\n";
    pcts' := pcts;
    var pct := ParsePct(line);
    if pct.Some? {
      pcts' := pcts + [pct.value];
    }
    mp3' := mp3;
    var trimmed := Trim(line);
    if EndsWith(trimmed, ".mp3") && present(trimmed) {
      mp3' := Some(trimmed);
    }
  }

  /** What one more stdout line adds to the log, the progress values and the produced file. */
  lemma StdoutStep(done: seq<string>, line: string, present: string -> bool)
    ensures Lines("", done + [line]) == Lines("", done) + line + "\n"
    ensures Progress(done + [line]) == Progress(done) + PctOf(line)
    ensures LastMp3(done + [line], present)
            == if Produced(line, present).Some? then Produced(line, present) else LastMp3(done, present)
  {
    StdoutLinesSnoc(done, line);
    assert (done + [line])[..|done|] == done;
  }

  method ScanStderr(stderr: seq<string>, out: string) returns (log: string)
    ensures log == out + Lines("[stderr] ", stderr)
  {
    log := out;
    var j := 0;
    while j < |stderr|
      invariant 0 <= j <= |stderr|
      invariant log == out + Lines("[stderr] ", stderr[..j])
    {
      assert stderr[..j + 1] == stderr[..j] + [stderr[j]];
      LinesSnoc("[stderr] ", stderr[..j], stderr[j]);
      log := log + "[stderr] " + stderr[j] + "\n";
      j := j + 1;
    }
    assert stderr[..j] == stderr;
  }

  // ---------------------------------------------------------------- ffmpeg's command line

  /** An ffmpeg option and its value. */
  type Opt = (string, string)

  /** Options as ffmpeg receives them: each name followed by its value. */
  function Flat(os: seq<Opt>): (xs: seq<string>)
    ensures |xs| == 2 * |os|
  {
    if os == [] then [] else [os[0].0, os[0].1] + Flat(os[1..])
  }

  /** Reading arguments back as name/value pairs; an odd count has no reading. */
  function Pairs(xs: seq<string>): Option<seq<Opt>>
    decreases |xs|
  {
    if xs == [] then Some([])
    else if |xs| == 1 then None
    else match Pairs(xs[2..])
      case Some(ps) => Some([(xs[0], xs[1])] + ps)
      case None => None
  }

  lemma {:induction false} PairsFlat(os: seq<Opt>)
    ensures Pairs(Flat(os)) == Some(os)
    decreases |os|
  {
    if os != [] {
      var xs := Flat(os);
      assert xs[2..] == Flat(os[1..]);
      PairsFlat(os[1..]);
      assert [(xs[0], xs[1])] + os[1..] == os;
    }
  }

  /** The values given to the option `name`, in order. */
  function Values(os: seq<Opt>, name: string): seq<string>
  {
    if os == [] then []
    else if os[0].0 == name then [os[0].1] + Values(os[1..], name)
    else Values(os[1..], name)
  }

  lemma {:induction false} ValuesAppend(a: seq<Opt>, b: seq<Opt>, name: string)
    ensures Values(a + b, name) == Values(a, name) + Values(b, name)
    decreases |a|
  {
    if a == [] {
      assert a + b == b;
    } else {
      assert (a + b)[0] == a[0] && (a + b)[1..] == a[1..] + b;
      ValuesAppend(a[1..], b, name);
    }
  }

  function AsList(o: Option<string>): seq<string>
  {
    if o.Some? then [o.value] else []
  }

  /** The option `name` once for each of `vals`. */
  function Each(name: string, vals: seq<string>): (os: seq<Opt>)
    ensures |os| == |vals|
  {
    if vals == [] then [] else [(name, vals[0])] + Each(name, vals[1..])
  }

  lemma {:induction false} ValuesEach(opt: string, vals: seq<string>, name: string)
    ensures Values(Each(opt, vals), name) == if name == opt then vals else []
    decreases |vals|
  {
    if vals != [] {
      ValuesEach(opt, vals[1..], name);
      assert [vals[0]] + vals[1..] == vals;
    }
  }

  /** The inputs: the downloaded file, then the cover if there is one. */
  function Inputs(mp3: string, cover: Option<string>): seq<string> { [mp3] + AsList(cover) }

  /** The audio of the first input, and the picture of the second when there is a cover. */
  function Maps(cover: Option<string>): seq<string> { ["0:a"] + if cover.Some? then ["1:0"] else [] }

  /** The track tags. */
  function Tags(t: Track): seq<string>
  {
    ["title=" + t.title, "artist=" + t.artist, "album=" + t.album]
    + if t.trackPos.Some? then ["track=" + NatToString(t.trackPos.value)] else []
  }

  /** The tags of the picture stream, which mark it as the front cover. */
  function CoverTags(cover: Option<string>): seq<string>
  {
    if cover.Some? then ["title=Album cover", "comment=Cover (front)"] else []
  }

  /** All options in the order `embed_meta` adds them; streams are copied unchanged and tags
      are written as ID3v2.3. */
  function EmbedOpts(mp3: string, t: Track, cover: Option<string>): seq<Opt>
  {
    Each("-i", Inputs(mp3, cover)) + Each("-map", Maps(cover))
    + Each("-c", ["copy"]) + Each("-id3v2_version", ["3"])
    + Each("-metadata", Tags(t)) + Each("-metadata:s:v", CoverTags(cover))
  }

  /** The ffmpeg command line of `embed_meta`: overwrite, the options, the output file last. */
  function EmbedArgs(mp3: string, t: Track, cover: Option<string>, tmp: string): seq<string>
  {
    ["-y"] + Flat(EmbedOpts(mp3, t, cover)) + [tmp]
  }

  /** The command line reads back: "-y", then the options as name-value pairs, then the
      output file. */
  lemma EmbedArgsReadBack(mp3: string, t: Track, cover: Option<string>, tmp: string)
    ensures var args := EmbedArgs(mp3, t, cover, tmp);
            && |args| >= 2 && args[0] == "-y" && args[|args| - 1] == tmp
            && Pairs(args[1..|args| - 1]) == Some(EmbedOpts(mp3, t, cover))
  {
    var os := EmbedOpts(mp3, t, cover);
    var args := ["-y"] + Flat(os) + [tmp];
    assert args[1..|args| - 1] == Flat(os);
    PairsFlat(os);
  }

  lemma {:induction false} FlatAppend(a: seq<Opt>, b: seq<Opt>)
    ensures Flat(a + b) == Flat(a) + Flat(b)
    decreases |a|
  {
    if a == [] {
      assert a + b == b;
    } else {
      assert (a + b)[0] == a[0] && (a + b)[1..] == a[1..] + b;
      FlatAppend(a[1..], b);
    }
  }

  lemma FlatEachCons(name: string, vals: seq<string>)
    requires vals != []
    ensures Flat(Each(name, vals)) == [name, vals[0]] + Flat(Each(name, vals[1..]))
  {
    var os := Each(name, vals);
    assert os[0] == (name, vals[0]) && os[1..] == Each(name, vals[1..]);
  }

  /** Options with one name, spelled out. */
  lemma FlatEach(name: string, vals: seq<string>)
    requires |vals| <= 4
    ensures |vals| == 0 ==> Flat(Each(name, vals)) == []
    ensures |vals| == 1 ==> Flat(Each(name, vals)) == [name, vals[0]]
    ensures |vals| == 2 ==> Flat(Each(name, vals)) == [name, vals[0], name, vals[1]]
    ensures |vals| == 3 ==> Flat(Each(name, vals)) == [name, vals[0], name, vals[1], name, vals[2]]
    ensures |vals| == 4 ==> Flat(Each(name, vals)) == [name, vals[0], name, vals[1], name, vals[2], name, vals[3]]
  {
    if |vals| >= 1 {
      FlatEachCons(name, vals);
    }
    if |vals| >= 2 {
      FlatEachCons(name, vals[1..]);
      assert vals[1..][1..] == vals[2..];
    }
    if |vals| >= 3 {
      FlatEachCons(name, vals[2..]);
      assert vals[2..][1..] == vals[3..];
    }
    if |vals| >= 4 {
      FlatEachCons(name, vals[3..]);
      assert vals[3..][1..] == vals[4..];
    }
    assert vals[|vals|..] == [];
  }

  /** `embed_meta`'s construction of the argument vector, one `extend` at a time. */
  method BuildEmbedArgs(mp3: string, t: Track, cover: Option<string>, tmp: string) returns (args: seq<string>)
    ensures args == EmbedArgs(mp3, t, cover, tmp)
  {
    args := StreamArgs(mp3, cover);
    args := TagArgs(args, t, cover);
    args := args + [tmp];
    EmbedArgsSplit(mp3, t, cover, tmp);
  }

  /** The first extends: overwrite, the inputs, the stream maps, and the codec options. */
  method StreamArgs(mp3: string, cover: Option<string>) returns (args: seq<string>)
    ensures args == ["-y"] + Flat(Each("-i", Inputs(mp3, cover))) + Flat(Each("-map", Maps(cover)))
                    + Flat(Each("-c", ["copy"]) + Each("-id3v2_version", ["3"]))
  {
    FlatEach("-i", Inputs(mp3, cover));
    FlatEach("-map", Maps(cover));
    FlatEach("-c", ["copy"]);
    FlatEach("-id3v2_version", ["3"]);
    FlatAppend(Each("-c", ["copy"]), Each("-id3v2_version", ["3"]));
    args := ["-y", "-i", mp3];
    if cover.Some? {
      args := args + ["-i", cover.value];
      args := args + ["-map", "0:a", "-map", "1:0"];
    } else {
      args := args + ["-map", "0:a"];
    }
    args := args + ["-c", "copy", "-id3v2_version", "3"];
  }

  /** The tag extends: title, artist, album and the track number if any; then, with a cover,
      the tags of the picture stream. */
  method TagArgs(front: seq<string>, t: Track, cover: Option<string>) returns (args: seq<string>)
    ensures args == front + Flat(Each("-metadata", Tags(t))) + Flat(Each("-metadata:s:v", CoverTags(cover)))
  {
    FlatEach("-metadata", Tags(t));
    FlatEach("-metadata:s:v", CoverTags(cover));
    args := front;
    args := args + ["-metadata", "title=" + t.title];
    args := args + ["-metadata", "artist=" + t.artist];
    args := args + ["-metadata", "album=" + t.album];
    if t.trackPos.Some? {
      args := args + ["-metadata", "track=" + NatToString(t.trackPos.value)];
    }
    if cover.Some? {
      args := args + ["-metadata:s:v", "title=Album cover"];
      args := args + ["-metadata:s:v", "comment=Cover (front)"];
    }
  }

  /** The command line as the segments `embed_meta` extends it by. */
  lemma EmbedArgsSplit(mp3: string, t: Track, cover: Option<string>, tmp: string)
    ensures EmbedArgs(mp3, t, cover, tmp)
            == ["-y"] + Flat(Each("-i", Inputs(mp3, cover))) + Flat(Each("-map", Maps(cover)))
               + Flat(Each("-c", ["copy"]) + Each("-id3v2_version", ["3"]))
               + Flat(Each("-metadata", Tags(t))) + Flat(Each("-metadata:s:v", CoverTags(cover))) + [tmp]
  {
    var inputs, maps, tags, coverTags := Each("-i", Inputs(mp3, cover)), Each("-map", Maps(cover)),
                                         Each("-metadata", Tags(t)), Each("-metadata:s:v", CoverTags(cover));
    var c, d := Each("-c", ["copy"]), Each("-id3v2_version", ["3"]);
    Seqs.Regroup(inputs + maps, c, d, tags, coverTags);
    FlatFive(inputs, maps, c + d, tags, coverTags);
    Seqs.Wrap("-y", Flat(inputs), Flat(maps), Flat(c + d), Flat(tags), Flat(coverTags), tmp);
  }

  lemma FlatFive(a: seq<Opt>, b: seq<Opt>, c: seq<Opt>, d: seq<Opt>, e: seq<Opt>)
    ensures Flat(a + b + c + d + e) == Flat(a) + Flat(b) + Flat(c) + Flat(d) + Flat(e)
  {
    FlatAppend(a, b);
    FlatAppend(a + b, c);
    FlatAppend(a + b + c, d);
    FlatAppend(a + b + c + d, e);
  }

  /** What ffmpeg is told, option by option: it reads the downloaded file and then the cover,
      if any; it keeps the audio and, with a cover, the picture; it writes the title, artist
      and album tags, then the track number when the track has one; and it marks the picture
      as the front cover exactly when there is a cover. */
  lemma EmbedOptions(mp3: string, t: Track, cover: Option<string>)
    ensures Values(EmbedOpts(mp3, t, cover), "-i") == [mp3] + AsList(cover)
    ensures Values(EmbedOpts(mp3, t, cover), "-map") == ["0:a"] + (if cover.Some? then ["1:0"] else [])
    ensures Values(EmbedOpts(mp3, t, cover), "-metadata") == Tags(t)
    ensures Values(EmbedOpts(mp3, t, cover), "-metadata:s:v") == CoverTags(cover)
    ensures Values(EmbedOpts(mp3, t, cover), "-c") == ["copy"]
  {
    var os := EmbedOpts(mp3, t, cover);
    assert Values(os, "-i") == [mp3] + AsList(cover) by { EmbedValues(mp3, t, cover, "-i"); }
    assert Values(os, "-map") == Maps(cover) by { EmbedValues(mp3, t, cover, "-map"); }
    assert Values(os, "-metadata") == Tags(t) by { EmbedValues(mp3, t, cover, "-metadata"); }
    assert Values(os, "-metadata:s:v") == CoverTags(cover) by { EmbedValues(mp3, t, cover, "-metadata:s:v"); }
    assert Values(os, "-c") == ["copy"] by { EmbedValues(mp3, t, cover, "-c"); }
  }

  lemma EmbedValues(mp3: string, t: Track, cover: Option<string>, name: string)
    ensures Values(EmbedOpts(mp3, t, cover), name)
            == (if name == "-i" then Inputs(mp3, cover) else [])
               + (if name == "-map" then Maps(cover) else [])
               + (if name == "-c" then ["copy"] else [])
               + (if name == "-id3v2_version" then ["3"] else [])
               + (if name == "-metadata" then Tags(t) else [])
               + (if name == "-metadata:s:v" then CoverTags(cover) else [])
  {
    var a, b, c := Each("-i", Inputs(mp3, cover)), Each("-map", Maps(cover)), Each("-c", ["copy"]);
    var d, e, f := Each("-id3v2_version", ["3"]), Each("-metadata", Tags(t)), Each("-metadata:s:v", CoverTags(cover));
    ValuesSix(a, b, c, d, e, f, name);
    ValuesEach("-i", Inputs(mp3, cover), name);
    ValuesEach("-map", Maps(cover), name);
    ValuesEach("-c", ["copy"], name);
    ValuesEach("-id3v2_version", ["3"], name);
    ValuesEach("-metadata", Tags(t), name);
    ValuesEach("-metadata:s:v", CoverTags(cover), name);
  }

  lemma ValuesSix(a: seq<Opt>, b: seq<Opt>, c: seq<Opt>, d: seq<Opt>, e: seq<Opt>, f: seq<Opt>, name: string)
    ensures Values(a + b + c + d + e + f, name)
            == Values(a, name) + Values(b, name) + Values(c, name) + Values(d, name) + Values(e, name) + Values(f, name)
  {
    ValuesAppend(a + b + c + d + e, f, name);
    ValuesAppend(a + b + c + d, e, name);
    ValuesAppend(a + b + c, d, name);
    ValuesAppend(a + b, c, name);
    ValuesAppend(a, b, name);
  }

  // ---------------------------------------------------------------- the outside world

  /** A change to the file system that the pipeline asks for. */
  datatype Effect =
    | CreateDir(path: string)
    | WriteFile(path: string, bytes: seq<byte>)
    | RemoveFile(path: string)
    | Rename(from: string, to: string)

  /** What running yt-dlp produced: a failed spawn, or the lines of its two streams and what
      waiting for it gave (whether it exited successfully, or why the wait failed). */
  datatype YtRun = SpawnFailed(msg: string) | Ran(stdout: seq<string>, stderr: seq<string>, exit: Result<bool>)

  /** What running ffmpeg produced: a failed spawn, or its exit status and its error output. */
  datatype FfmpegRun = FfmpegSpawnFailed(msg: string) | FfmpegExited(success: bool, stderr: string)

  /** The processes, files and network the pipeline talks to, as what each request gives. */
  datatype Env = Env(
    ytdlp: seq<string> -> YtRun,
    present: string -> bool,
    coverNet: string -> Deezer.CoverOutcome,
    write: string -> Result<Unit>,
    ffmpeg: seq<string> -> FfmpegRun,
    rename: (string, string) -> Result<Unit>,
    tempDir: string,
    pid: nat)

  // ---------------------------------------------------------------- embed_meta

  /** What tagging did: its result, and the file-system changes it asked for. */
  datatype Embedded = Embedded(result: Result<Unit>, effects: seq<Effect>)

  /** `embed_meta`: ffmpeg copies the file into "<stem>.tmp.mp3" with the tags and the cover;
      the cover file is removed once ffmpeg has run; a failed run removes the temporary file,
      and a successful one is renamed over the original. */
  function EmbedMeta(mp3: string, t: Track, cover: Option<string>, env: Env): (e: Embedded)
    requires EndsWith(mp3, ".mp3")
    ensures var tmp := WithExtension(mp3, "tmp.mp3");
            var run := env.ffmpeg(EmbedArgs(mp3, t, cover, tmp));
            && (run.FfmpegSpawnFailed? ==> e == Embedded(Err("ffmpeg: " + run.msg), []))
            && (run.FfmpegExited? && !run.success ==>
                  e == Embedded(Err("ffmpeg err: " + run.stderr), CoverRemoval(cover) + [RemoveFile(tmp)]))
            && (run.FfmpegExited? && run.success ==>
                  e.effects == CoverRemoval(cover) + [Rename(tmp, mp3)]
                  && (e.result.Ok? <==> env.rename(tmp, mp3).Ok?)
                  && (e.result.Err? ==> e.result.error == "rename: " + env.rename(tmp, mp3).error))
  {
    var tmp := WithExtension(mp3, "tmp.mp3");
    match env.ffmpeg(EmbedArgs(mp3, t, cover, tmp))
    case FfmpegSpawnFailed(msg) => Embedded(Err("ffmpeg: " + msg), [])
    case FfmpegExited(success, stderr) =>
      var removed := CoverRemoval(cover);
      if !success then Embedded(Err("ffmpeg err: " + stderr), removed + [RemoveFile(tmp)])
      else match env.rename(tmp, mp3)
        case Ok(_) => Embedded(Ok(Unit), removed + [Rename(tmp, mp3)])
        case Err(msg) => Embedded(Err("rename: " + msg), removed + [Rename(tmp, mp3)])
  }

  function CoverRemoval(cover: Option<string>): seq<Effect>
  {
    if cover.Some? then [RemoveFile(cover.value)] else []
  }

  /** Tagging never removes the downloaded file (unless it is the cover itself), and whatever
      it renames goes onto the downloaded file from the distinct temporary one. */
  lemma EmbedKeepsTrack(mp3: string, t: Track, cover: Option<string>, env: Env)
    requires EndsWith(mp3, ".mp3")
    requires cover != Some(mp3)
    ensures forall k :: 0 <= k < |EmbedMeta(mp3, t, cover, env).effects| ==>
              var ef := EmbedMeta(mp3, t, cover, env).effects[k];
              (ef.RemoveFile? ==> ef.path != mp3) && (ef.Rename? ==> ef.to == mp3 && ef.from != mp3)
  {
    var tmp := WithExtension(mp3, "tmp.mp3");
    TmpPathOfMp3(mp3);
    var e := EmbedMeta(mp3, t, cover, env);
    match env.ffmpeg(EmbedArgs(mp3, t, cover, tmp))
    case FfmpegSpawnFailed(_) =>
    case FfmpegExited(success, _) =>
      if success {
        assert e.effects == CoverRemoval(cover) + [Rename(tmp, mp3)];
        SparesTrack(cover, Rename(tmp, mp3), mp3);
      } else {
        assert e.effects == CoverRemoval(cover) + [RemoveFile(tmp)];
        SparesTrack(cover, RemoveFile(tmp), mp3);
      }
  }

  /** Removing a cover other than the track, then one last change that spares the track. */
  lemma SparesTrack(cover: Option<string>, last: Effect, mp3: string)
    requires cover != Some(mp3)
    requires (last.RemoveFile? ==> last.path != mp3) && (last.Rename? ==> last.to == mp3 && last.from != mp3)
    ensures forall k :: 0 <= k < |CoverRemoval(cover) + [last]| ==>
              var ef := (CoverRemoval(cover) + [last])[k];
              (ef.RemoveFile? ==> ef.path != mp3) && (ef.Rename? ==> ef.to == mp3 && ef.from != mp3)
  {
  }

  /** Success means ffmpeg ran and succeeded and the rename worked; the cover, if any, is
      removed whenever ffmpeg ran. */
  lemma EmbedSucceeds(mp3: string, t: Track, cover: Option<string>, env: Env)
    requires EndsWith(mp3, ".mp3")
    ensures var tmp := WithExtension(mp3, "tmp.mp3");
            var run := env.ffmpeg(EmbedArgs(mp3, t, cover, tmp));
            var e := EmbedMeta(mp3, t, cover, env);
            && (e.result.Ok? <==> run.FfmpegExited? && run.success && env.rename(tmp, mp3).Ok?)
            && (cover.Some? ==> (RemoveFile(cover.value) in e.effects <==> run.FfmpegExited?))
  {
  }

  // ---------------------------------------------------------------- fetch_cover_tmp

  const U64_MODULUS: nat := U64_MAX + 1

  /** The process-wide counter that numbers cover files; `fetch_add` wraps at 2^64. */
  class CoverCounter {
    var next: u64

    constructor ()
      ensures next == 0
    {
      next := 0;
    }

    /** `fetch_add(1)`: the current value, and the counter moves on by one. */
    method FetchAdd() returns (n: u64)
      modifies this
      ensures n == old(next)
      ensures next == (old(next) + 1) % U64_MODULUS
    {
      n := next;
      next := (next + 1) % U64_MODULUS;
    }
  }

  /** "mdl_cover_<pid>_<n>.jpg". */
  function CoverName(pid: nat, n: nat): string
  {
    "mdl_cover_" + NatToString(pid) + "_" + NatToString(n) + ".jpg"
  }

  function CoverPath(env: Env, n: nat): string
  {
    Join(env.tempDir, CoverName(env.pid, n))
  }

  /** Different counter values give different cover files. */
  lemma CoverPathsDistinct(env: Env, n: nat, m: nat)
    requires n != m
    ensures CoverPath(env, n) != CoverPath(env, m)
  {
    var a, b := CoverName(env.pid, n), CoverName(env.pid, m);
    if CoverPath(env, n) == CoverPath(env, m) {
      assert !StartsWith(a, "/") && !StartsWith(b, "/") by {
        assert a[0] == 'm' && b[0] == 'm';
      }
      JoinCancel(env.tempDir, a, b);
      CoverNameInjective(env.pid, n, m);
    }
  }

  lemma JoinCancel(base: string, x: string, y: string)
    requires !StartsWith(x, "/") && !StartsWith(y, "/")
    requires Join(base, x) == Join(base, y)
    ensures x == y
  {
    var p := Join(base, x);
    assert |x| == |y|;
    assert x == p[|p| - |x|..] == y;
  }

  lemma CoverNameInjective(pid: nat, n: nat, m: nat)
    requires CoverName(pid, n) == CoverName(pid, m)
    ensures n == m
  {
    var head := "mdl_cover_" + NatToString(pid) + "_";
    var x, y := NatToString(n), NatToString(m);
    Assoc3(head, x, ".jpg");
    Assoc3(head, y, ".jpg");
    CancelAround(head, x, y, ".jpg");
    NatToStringInjective(n, m);
  }

  lemma Assoc3(a: string, b: string, c: string)
    ensures a + b + c == a + (b + c)
  {
  }

  lemma CancelAround(a: string, x: string, y: string, b: string)
    requires a + (x + b) == a + (y + b)
    ensures x == y
  {
    var s := a + (x + b);
    assert |x| == |y|;
    assert x == s[|a|..|a| + |x|];
    assert y == (a + (y + b))[|a|..|a| + |y|];
  }

  /** What `fetch_cover_tmp` does with the counter at `n`: no cover URL or a failed download
      gives nothing and leaves the counter alone; otherwise the bytes are written to the next
      cover file, which is returned if the write succeeded. */
  datatype CoverFetch = CoverFetch(path: Option<string>, effects: seq<Effect>, bumped: bool)

  function FetchCoverSpec(t: Track, env: Env, n: nat): (c: CoverFetch)
    ensures c.path.Some? ==> c.bumped && c.path.value == CoverPath(env, n)
    ensures !c.bumped <==> t.coverUrl == [] || Deezer.FetchCover(t.coverUrl, env.coverNet).Err?
    ensures !c.bumped ==> c == CoverFetch(None, [], false)
  {
    if t.coverUrl == [] then CoverFetch(None, [], false)
    else match Deezer.FetchCover(t.coverUrl, env.coverNet)
      case Err(_) => CoverFetch(None, [], false)
      case Ok(bytes) =>
        var path := CoverPath(env, n);
        CoverFetch(if env.write(path).Ok? then Some(path) else None, [WriteFile(path, bytes)], true)
  }

  method FetchCoverTmp(counter: CoverCounter, t: Track, env: Env) returns (p: Option<string>, effects: seq<Effect>)
    modifies counter
    ensures var c := FetchCoverSpec(t, env, old(counter.next));
            && p == c.path && effects == c.effects
            && counter.next == if c.bumped then (old(counter.next) + 1) % U64_MODULUS else old(counter.next)
  {
    p, effects := None, [];
    if t.coverUrl == [] {
      return;
    }
    var data := Deezer.FetchCover(t.coverUrl, env.coverNet);
    if data.Err? {
      return;
    }
    var n := counter.FetchAdd();
    var path := Join(env.tempDir, CoverName(env.pid, n));
    effects := [WriteFile(path, data.value)];
    if env.write(path).Err? {
      return;
    }
    p := Some(path);
  }

  // ---------------------------------------------------------------- download

  /** The produced file, when there is one, is a trimmed ".mp3" line that exists. */
  lemma {:induction false} LastMp3IsMp3(ls: seq<string>, present: string -> bool)
    ensures var f := LastMp3(ls, present);
            f.Some? ==> EndsWith(f.value, ".mp3") && present(f.value) && exists i :: 0 <= i < |ls| && Trim(ls[i]) == f.value
    decreases |ls|
  {
    if ls != [] && Produced(ls[|ls| - 1], present).None? {
      var init := ls[..|ls| - 1];
      LastMp3IsMp3(init, present);
      if LastMp3(init, present).Some? {
        var i :| 0 <= i < |init| && Trim(init[i]) == LastMp3(init, present).value;
        assert ls[i] == init[i];
      }
    }
  }

  /** What `download` does with the cover counter at `n`: its result, the values reported
      to `on_progress` in order, the file-system changes asked for, and whether a cover
      number was used. */
  datatype Downloaded = Downloaded(result: Result<string>, progress: seq<real>, effects: seq<Effect>, bumped: bool)

  function DownloadSpec(t: Track, base: string, env: Env, n: nat): Downloaded
  {
    var dir := TrackDir(base, t);
    var made := if UsesAlbumFolder(t) then [CreateDir(dir)] else [];
    match env.ytdlp(YtdlpArgs(t, dir))
    case SpawnFailed(msg) => Downloaded(Err("spawn: " + msg), [], made, false)
    case Ran(out, err, exit) =>
      LastMp3IsMp3(out, env.present);
      AfterRun(t, base, env, n, exit, Lines("", out) + Lines("[stderr] ", err), Progress(out),
               LastMp3(out, env.present), made)
  }

  /** The steps after yt-dlp's output has been read: its exit, then the produced file. */
  function AfterRun(t: Track, base: string, env: Env, n: nat, exit: Result<bool>, log: string,
                    pcts: seq<real>, mp3: Option<string>, made: seq<Effect>): Downloaded
    requires mp3.Some? ==> EndsWith(mp3.value, ".mp3")
  {
    if exit.Err? then Downloaded(Err("wait: " + exit.error), pcts, made, false)
    else if !exit.value then Downloaded(Err("yt-dlp failed\n" + log), pcts, made, false)
    else if mp3.None? then Downloaded(Err("mp3 not found\n" + log), pcts, made, false)
    else FinishSpec(t, base, env, n, mp3.value, log, pcts, made)
  }

  /** The steps after yt-dlp produced `mp3`: progress 90, the cover, the tags, the final name,
      progress 100. */
  function FinishSpec(t: Track, base: string, env: Env, n: nat, mp3: string, log: string,
                      pcts: seq<real>, made: seq<Effect>): Downloaded
    requires EndsWith(mp3, ".mp3")
  {
    var c := FetchCoverSpec(t, env, n);
    var e := EmbedMeta(mp3, t, c.path, env);
    var tagged := made + c.effects + e.effects;
    if e.result.Err? then Downloaded(Err(e.result.error), pcts + [90.0], tagged, c.bumped)
    else
      var finalPath := FinalPath(base, t);
      var renamed := if finalPath != mp3 then [Rename(mp3, finalPath)] else [];
      Downloaded(Ok(log), pcts + [90.0, 100.0], tagged + renamed, c.bumped)
  }

  /** `download`: the whole pipeline for one track. */
  method Download(t: Track, base: string, env: Env, covers: CoverCounter)
    returns (r: Result<string>, progress: seq<real>, effects: seq<Effect>)
    modifies covers
    ensures var d := DownloadSpec(t, base, env, old(covers.next));
            && r == d.result && progress == d.progress && effects == d.effects
            && covers.next == if d.bumped then (old(covers.next) + 1) % U64_MODULUS else old(covers.next)
  {
    var dir := TrackDir(base, t);
    effects := if UsesAlbumFolder(t) then [CreateDir(dir)] else [];
    progress := [];
    var run := env.ytdlp(YtdlpArgs(t, dir));
    if run.SpawnFailed? {
      r := Err("spawn: " + run.msg);
      return;
    }
    var log, mp3, pcts := ScanOutput(run.stdout, run.stderr, env.present);
    LastMp3IsMp3(run.stdout, env.present);
    r, progress, effects := Conclude(t, base, env, covers, run.exit, log, pcts, mp3, effects);
  }

  /** The part of `download` after yt-dlp's output has been read. */
  method Conclude(t: Track, base: string, env: Env, covers: CoverCounter, exit: Result<bool>, log: string,
                  pcts: seq<real>, mp3: Option<string>, made: seq<Effect>)
    returns (r: Result<string>, progress: seq<real>, effects: seq<Effect>)
    requires mp3.Some? ==> EndsWith(mp3.value, ".mp3")
    modifies covers
    ensures var d := AfterRun(t, base, env, old(covers.next), exit, log, pcts, mp3, made);
            && r == d.result && progress == d.progress && effects == d.effects
            && covers.next == if d.bumped then (old(covers.next) + 1) % U64_MODULUS else old(covers.next)
  {
    progress, effects := pcts, made;
    if exit.Err? {
      r := Err("wait: " + exit.error);
      return;
    }
    if !exit.value {
      r := Err("yt-dlp failed\n" + log);
      return;
    }
    if mp3.None? {
      r := Err("mp3 not found\n" + log);
      return;
    }
    r, progress, effects := Finish(t, base, env, covers, mp3.value, log, progress, effects);
  }

  /** The tail of `download`, once the file is known. */
  method Finish(t: Track, base: string, env: Env, covers: CoverCounter, mp3: string, log: string,
                pcts: seq<real>, made: seq<Effect>)
    returns (r: Result<string>, progress: seq<real>, effects: seq<Effect>)
    requires EndsWith(mp3, ".mp3")
    modifies covers
    ensures var d := FinishSpec(t, base, env, old(covers.next), mp3, log, pcts, made);
            && r == d.result && progress == d.progress && effects == d.effects
            && covers.next == if d.bumped then (old(covers.next) + 1) % U64_MODULUS else old(covers.next)
  {
    ghost var n := covers.next;
    progress := pcts + [90.0];
    var cover, written := FetchCoverTmp(covers, t, env);
    ghost var c := FetchCoverSpec(t, env, n);
    assert cover == c.path && written == c.effects;
    effects := made + written;
    var embedded := EmbedMeta(mp3, t, cover, env);
    effects := effects + embedded.effects;
    if embedded.result.Err? {
      r := Err(embedded.result.error);
      return;
    }
    var finalPath := FinalPath(base, t);
    if finalPath != mp3 {
      effects := effects + [Rename(mp3, finalPath)];
    }
    Seqs.SnocTwo(pcts, 90.0, 100.0);
    progress := progress + [100.0];
    r := Ok(log);
  }

  /** After a run, a download succeeds exactly when yt-dlp exited successfully, a produced
      file was named, and tagging succeeded; the result is then the log of both streams, and
      the progress reported is every value yt-dlp printed, then 90 and 100. */
  lemma DownloadSucceeds(t: Track, base: string, env: Env, n: nat, exit: Result<bool>, log: string,
                         pcts: seq<real>, mp3: Option<string>, made: seq<Effect>)
    requires mp3.Some? ==> EndsWith(mp3.value, ".mp3")
    ensures var d := AfterRun(t, base, env, n, exit, log, pcts, mp3, made);
            && (d.result.Ok? <==>
                  exit == Ok(true) && mp3.Some?
                  && EmbedMeta(mp3.value, t, FetchCoverSpec(t, env, n).path, env).result.Ok?)
            && (d.result.Ok? ==> d.result.value == log && d.progress == pcts + [90.0, 100.0])
  {
    if exit == Ok(true) && mp3.Some? {
      assert pcts + [90.0] + [100.0] == pcts + [90.0, 100.0];
    }
  }

  /** Every failure names its cause, the progress reported so far is never lost, and the
      changes asked for before the run come first. */
  lemma DownloadFailures(t: Track, base: string, env: Env, n: nat, exit: Result<bool>, log: string,
                         pcts: seq<real>, mp3: Option<string>, made: seq<Effect>)
    requires mp3.Some? ==> EndsWith(mp3.value, ".mp3")
    ensures var d := AfterRun(t, base, env, n, exit, log, pcts, mp3, made);
            && (exit.Err? ==> d.result == Err("wait: " + exit.error))
            && (exit == Ok(false) ==> d.result == Err("yt-dlp failed\n" + log))
            && (exit == Ok(true) && mp3.None? ==> d.result == Err("mp3 not found\n" + log))
            && |pcts| <= |d.progress| && d.progress[..|pcts|] == pcts
            && |made| <= |d.effects| && d.effects[..|made|] == made
  {
    if exit == Ok(true) && mp3.Some? {
      FinishKeepsPrefix(t, base, env, n, mp3.value, log, pcts, made);
    }
  }

  /** The tail of a download only adds progress values and changes after those before it. */
  lemma FinishKeepsPrefix(t: Track, base: string, env: Env, n: nat, mp3: string, log: string,
                          pcts: seq<real>, made: seq<Effect>)
    requires EndsWith(mp3, ".mp3")
    ensures var d := FinishSpec(t, base, env, n, mp3, log, pcts, made);
            && |pcts| <= |d.progress| && d.progress[..|pcts|] == pcts
            && |made| <= |d.effects| && d.effects[..|made|] == made
  {
    var c := FetchCoverSpec(t, env, n);
    var e := EmbedMeta(mp3, t, c.path, env);
    var renamed := if FinalPath(base, t) != mp3 then [Rename(mp3, FinalPath(base, t))] else [];
    KeepsPrefix(pcts, made, c.effects, e.effects, renamed);
  }

  /** The progress values and the changes of a finished download extend the earlier ones. */
  lemma KeepsPrefix(pcts: seq<real>, made: seq<Effect>, cover: seq<Effect>, tags: seq<Effect>, renamed: seq<Effect>)
    ensures (pcts + [90.0])[..|pcts|] == pcts && (pcts + [90.0, 100.0])[..|pcts|] == pcts
    ensures (made + cover + tags)[..|made|] == made && (made + cover + tags + renamed)[..|made|] == made
  {
    PrefixKept(pcts, [90.0], [100.0]);
    assert [90.0] + [100.0] == [90.0, 100.0];
    PrefixKept(made, cover + tags, renamed);
    assert made + cover + tags == made + (cover + tags);
  }

  /** After a successful download the file carries its final name: the last change renames
      the produced file to "<artist> - <title>.mp3" in the track's folder, unless yt-dlp
      already produced exactly that file, which tagging then replaced. */
  lemma DownloadFinalName(t: Track, base: string, env: Env, n: nat, exit: Result<bool>, log: string,
                          pcts: seq<real>, mp3: Option<string>, made: seq<Effect>)
    requires mp3.Some? ==> EndsWith(mp3.value, ".mp3")
    requires AfterRun(t, base, env, n, exit, log, pcts, mp3, made).result.Ok?
    ensures var d := AfterRun(t, base, env, n, exit, log, pcts, mp3, made);
            && mp3.Some? && |d.effects| > 0
            && var last := d.effects[|d.effects| - 1];
            if mp3.value == FinalPath(base, t) then last == Rename(WithExtension(mp3.value, "tmp.mp3"), mp3.value)
            else last == Rename(mp3.value, FinalPath(base, t))
  {
    var m := mp3.value;
    var c := FetchCoverSpec(t, env, n);
    var e := EmbedMeta(m, t, c.path, env);
    var tagged := made + c.effects + e.effects;
    assert AfterRun(t, base, env, n, exit, log, pcts, mp3, made) == FinishSpec(t, base, env, n, m, log, pcts, made);
    assert e.result.Ok?;
    EmbedOkLast(m, t, c.path, env);
    if FinalPath(base, t) == m {
      LastOfAppend(made + c.effects, e.effects);
    } else {
      LastOfAppend(tagged, [Rename(m, FinalPath(base, t))]);
    }
  }

  /** A successful tagging ends by renaming the temporary file over the download. */
  lemma EmbedOkLast(mp3: string, t: Track, cover: Option<string>, env: Env)
    requires EndsWith(mp3, ".mp3")
    requires EmbedMeta(mp3, t, cover, env).result.Ok?
    ensures var e := EmbedMeta(mp3, t, cover, env);
            |e.effects| > 0 && e.effects[|e.effects| - 1] == Rename(WithExtension(mp3, "tmp.mp3"), mp3)
  {
    var tmp := WithExtension(mp3, "tmp.mp3");
    LastOfAppend(CoverRemoval(cover), [Rename(tmp, mp3)]);
  }

  /** What `download` does for the run yt-dlp made. */
  lemma DownloadOfRun(t: Track, base: string, env: Env, n: nat)
    ensures var run := env.ytdlp(YtdlpArgs(t, TrackDir(base, t)));
            var made := if UsesAlbumFolder(t) then [CreateDir(TrackDir(base, t))] else [];
            var d := DownloadSpec(t, base, env, n);
            && (run.SpawnFailed? ==> d == Downloaded(Err("spawn: " + run.msg), [], made, false))
            && (run.Ran? ==>
                  var mp3 := LastMp3(run.stdout, env.present);
                  && (mp3.Some? ==> EndsWith(mp3.value, ".mp3") && env.present(mp3.value))
                  && d == AfterRun(t, base, env, n, run.exit, Lines("", run.stdout) + Lines("[stderr] ", run.stderr),
                                   Progress(run.stdout), mp3, made))
  {
    var run := env.ytdlp(YtdlpArgs(t, TrackDir(base, t)));
    if run.Ran? {
      LastMp3IsMp3(run.stdout, env.present);
    }
  }
}
