/** The Deezer client of `src/backend/deezer.rs`: the query encoder `enc`, the request URLs,
    and the mapping of Deezer's records into catalogue records. The HTTP exchange itself is a
    parameter `net` that gives, for a URL, what the request produced. */
module Deezer {
  import opened Wrappers
  import opened Text
  import opened FormUrl
  import opened Models
  import opened Http

  const API: string := "https://api.deezer.com"
  const LIMIT: nat := 25

  // ---------------------------------------------------------------- enc

  /** Rust's `char::is_alphanumeric` (Unicode Alphabetic or Numeric), exact on ASCII and on
      the Latin-1 Supplement; characters above U+00FF count as not alphanumeric. */
  predicate IsAlphanumeric(c: char)
  {
    ('a' <= c <= 'z') || ('A' <= c <= 'Z') || ('0' <= c <= '9')
    || c == '\U{00AA}' || c == '\U{00B2}' || c == '\U{00B3}' || c == '\U{00B5}'
    || c == '\U{00B9}' || c == '\U{00BA}' || ('\U{00BC}' <= c <= '\U{00BE}')
    || ('\U{00C0}' <= c <= '\U{00D6}') || ('\U{00D8}' <= c <= '\U{00F6}')
    || ('\U{00F8}' <= c <= '\U{00FF}')
  }

  /** The characters `enc` leaves as they are: alphanumerics and `-_.~`. */
  predicate IsKept(c: char) { IsAlphanumeric(c) || c in "-_.~" }

  /** One character of `enc` as written: space becomes `+`, kept characters stay, and any
      other character becomes `%` and the upper-case hexadecimal of its CODE POINT (at least
      two digits). */
  function EncChar(c: char): (r: string)
    ensures c == ' ' ==> r == "+"
    ensures c != ' ' && IsKept(c) ==> r == [c]
    ensures c != ' ' && !IsKept(c) ==> r == "%" + Hex2(c as int)
  {
    if c == ' ' then "+" else if IsKept(c) then [c] else "%" + Hex2(c as int)
  }

  /** `enc` as written: the characters' encodings, in order. */
  function Enc(s: string): string
    decreases |s|
  {
    if s == [] then [] else EncChar(s[0]) + Enc(s[1..])
  }

  /** `enc` works character by character. */
  lemma {:induction false} EncAppend(a: string, b: string)
    ensures Enc(a + b) == Enc(a) + Enc(b)
    decreases |a|
  {
    if a == [] {
      assert a + b == b;
    } else {
      assert (a + b)[1..] == a[1..] + b;
      EncAppend(a[1..], b);
    }
  }

  /** A string of kept characters is its own encoding. */
  lemma {:induction false} EncKeptFixed(s: string)
    requires forall i :: 0 <= i < |s| ==> IsKept(s[i])
    ensures Enc(s) == s
    decreases |s|
  {
    if s != [] {
      EncKeptFixed(s[1..]);
    }
  }

  lemma EncExamples()
    ensures Enc("+") == "%2B" && Enc("&") == "%26" && Enc("a b") == "a+b"
  {
    EncPlus();
    EncAmpersand();
    assert Enc("a b") == "a" + Enc(" b");
    assert Enc(" b") == "+" + Enc("b");
  }

  lemma EncPlus()
    ensures Enc("+") == "%2B"
  {
    assert Hex2('+' as int) == "2B" by {
      assert NatToHex(43) == NatToHex(2) + [HexDigitChar(11)];
    }
    assert Enc("+") == EncChar('+') + Enc("");
  }

  lemma EncAmpersand()
    ensures Enc("&") == "%26"
  {
    assert Hex2('&' as int) == "26" by {
      assert NatToHex(38) == NatToHex(2) + [HexDigitChar(6)];
    }
    assert Enc("&") == EncChar('&') + Enc("");
  }

  /** The characters that may appear in an encoding. */
  predicate IsEncodedChar(c: char) { c == '+' || c == '%' || IsUpperHexDigit(c) || IsKept(c) }

  /** The output of `enc` never holds a query delimiter or a space, so the encoded text stays
      one query value. */
  lemma {:induction false} EncNoDelimiters(s: string)
    ensures forall i :: 0 <= i < |Enc(s)| ==> IsEncodedChar(Enc(s)[i])
    ensures forall c :: c in " &=?#" ==> c !in Enc(s)
    decreases |s|
  {
    if s != [] {
      EncNoDelimiters(s[1..]);
      var h := EncChar(s[0]);
      assert forall i :: 0 <= i < |h| ==> IsEncodedChar(h[i]);
    }
  }

  // ---------------------------------------------------------------- the enc finding

  /** A right single quotation mark, common in song titles ("Don’t"), is escaped as its code
      point "%2019", which a server decodes as the three bytes of " 19", not as the quotation
      mark's UTF-8 bytes. */
  lemma EncCodePointMisdecoded()
    ensures Enc("\U{2019}") == "%2019"
    ensures FormDecode(Enc("\U{2019}")) == [0x20, 0x31, 0x39]
    ensures FormDecode(Enc("\U{2019}")) != Utf8String("\U{2019}")
  {
    QuoteEscaped();
    QuoteDecoded();
    QuoteUtf8();
  }

  lemma QuoteEscaped()
    ensures Enc("\U{2019}") == "%2019"
  {
    var c := '\U{2019}';
    assert !IsKept(c);
    QuoteHex();
    assert Enc([c]) == "%" + NatToHex(0x2019) + Enc([]);
  }

  lemma QuoteHex()
    ensures NatToHex(0x2019) == "2019"
  {
    assert NatToHex(0x2019) == NatToHex(0x201) + [HexDigitChar(9)];
    assert NatToHex(0x201) == NatToHex(0x20) + [HexDigitChar(1)];
    assert NatToHex(0x20) == NatToHex(2) + [HexDigitChar(0)];
  }

  lemma QuoteDecoded()
    ensures FormDecode("%2019") == [0x20, 0x31, 0x39]
  {
    assert FormDecode("%2019") == [0x20] + FormDecode("19");
    assert FormDecode("19") == Utf8('1') + FormDecode("9");
    assert FormDecode("9") == Utf8('9') + FormDecode("");
  }

  lemma QuoteUtf8()
    ensures Utf8String("\U{2019}")[0] == 0xE2
  {
    var c := '\U{2019}';
    assert Utf8String([c]) == Utf8(c) + Utf8String([]);
    assert Utf8(c) == [0xE2, 0x80, 0x99];
  }

  /** One character of the corrected encoder: the same rules, except that an escaped
      character is written as its UTF-8 bytes, each as `%XX` (section 2.1 of RFC 3986). */
  function EncUtf8Char(c: char): (r: string)
    ensures c == ' ' ==> r == "+"
    ensures c != ' ' && IsKept(c) ==> r == [c]
    ensures c != ' ' && !IsKept(c) ==> r == PercentBytes(Utf8(c))
  {
    if c == ' ' then "+" else if IsKept(c) then [c] else PercentBytes(Utf8(c))
  }

  /** The corrected encoder. */
  function EncUtf8(s: string): string
    decreases |s|
  {
    if s == [] then [] else EncUtf8Char(s[0]) + EncUtf8(s[1..])
  }

  /** The corrected encoder round-trips: the server decodes exactly the UTF-8 bytes of the
      query. */
  lemma {:induction false} EncUtf8RoundTrip(s: string)
    ensures FormDecode(EncUtf8(s)) == Utf8String(s)
    decreases |s|
  {
    if s != [] {
      var c, rest := s[0], EncUtf8(s[1..]);
      if c == ' ' {
        DecodePlus(rest);
      } else if IsKept(c) {
        DecodePlainChar(c, rest);
      } else {
        DecodePercentBytes(Utf8(c), rest);
      }
      EncUtf8RoundTrip(s[1..]);
    }
  }

  /** The corrected encoder keeps the delimiter-free property of `enc`. */
  lemma {:induction false} EncUtf8NoDelimiters(s: string)
    ensures forall i :: 0 <= i < |EncUtf8(s)| ==> IsEncodedChar(EncUtf8(s)[i])
    decreases |s|
  {
    if s != [] {
      EncUtf8NoDelimiters(s[1..]);
      var h := EncUtf8Char(s[0]);
      assert forall i :: 0 <= i < |h| ==> IsEncodedChar(h[i]);
    }
  }

  /** Where every escaped character is ASCII, `enc` and the corrected encoder agree: the code
      point of such a character is its one UTF-8 byte. */
  lemma {:induction false} EncAsciiAgrees(s: string)
    requires forall i :: 0 <= i < |s| ==> IsKept(s[i]) || s[i] as int < 0x80
    ensures Enc(s) == EncUtf8(s)
    decreases |s|
  {
    if s != [] {
      var c := s[0];
      if c != ' ' && !IsKept(c) {
        assert PercentBytes(Utf8(c)) == "%" + Hex2(c as int) + PercentBytes([]);
      }
      EncAsciiAgrees(s[1..]);
    }
  }

  // ---------------------------------------------------------------- URLs

  datatype SearchKind = ArtistSearch | AlbumSearch | TrackSearch

  function KindName(k: SearchKind): string
  {
    match k
    case ArtistSearch => "artist"
    case AlbumSearch => "album"
    case TrackSearch => "track"
  }

  function SearchPath(k: SearchKind): (path: string)
    ensures '?' !in path
  {
    var path := API + "/search/" + KindName(k);
    assert forall c :: c in API + "/search/" ==> c != '?';
    path
  }

  /** `{API}/search/<kind>?q=<enc(query)>&limit=25`, as the searches build it. */
  function SearchUrl(k: SearchKind, q: string): (url: string)
    ensures StartsWith(url, SearchPath(k) + "?q=")
    ensures EndsWith(url, "&limit=25")
  {
    var prefix := SearchPath(k) + "?q=";
    var url := prefix + Enc(q) + "&limit=" + NatToString(LIMIT);
    LimitText();
    assert url[..|prefix|] == prefix;
    url
  }

  /** The same URL built with the corrected encoder. */
  function SearchUrlUtf8(k: SearchKind, q: string): (url: string)
    ensures StartsWith(url, SearchPath(k) + "?q=")
    ensures EndsWith(url, "&limit=25")
  {
    var prefix := SearchPath(k) + "?q=";
    var url := prefix + EncUtf8(q) + "&limit=" + NatToString(LIMIT);
    LimitText();
    assert url[..|prefix|] == prefix;
    url
  }

  lemma LimitText()
    ensures NatToString(LIMIT) == "25"
  {
    assert NatToString(25) == NatToString(2) + [DigitChar(5)];
  }

  /** The search URL as built has exactly one query with exactly two parameters, the first
      one's value is `enc` of the user's query, and that value decodes to the query whenever
      every escaped character of it is ASCII. */
  lemma SearchUrlQuery(k: SearchKind, q: string)
    ensures var parts := Split(SearchUrl(k, q), '?');
            && |parts| == 2
            && Split(parts[1], '&') == ["q=" + Enc(q), "limit=25"]
    ensures (forall i :: 0 <= i < |q| ==> IsKept(q[i]) || q[i] as int < 0x80) ==>
              FormDecode(Split(Split(SearchUrl(k, q), '?')[1], '&')[0][2..]) == Utf8String(q)
  {
    EncNoDelimiters(q);
    SearchUrlShape(k, q);
    QuerySplit(SearchPath(k), Enc(q));
    if forall i :: 0 <= i < |q| ==> IsKept(q[i]) || q[i] as int < 0x80 {
      EncAsciiAgrees(q);
      EncUtf8RoundTrip(q);
    }
  }

  /** With the corrected encoder the search URL has exactly one query, with exactly two
      parameters, and the first one's value decodes to the user's query whatever it holds:
      no character of the query can break out of it or come back altered. */
  lemma SearchUrlQueryDecodes(k: SearchKind, q: string)
    ensures var parts := Split(SearchUrlUtf8(k, q), '?');
            && |parts| == 2
            && Split(parts[1], '&') == ["q=" + EncUtf8(q), "limit=25"]
            && FormDecode(Split(parts[1], '&')[0][2..]) == Utf8String(q)
  {
    QueryClean(q);
    SearchUrlShape(k, q);
    QuerySplit(SearchPath(k), EncUtf8(q));
    EncUtf8RoundTrip(q);
  }

  lemma SearchUrlShape(k: SearchKind, q: string)
    ensures SearchUrl(k, q) == SearchPath(k) + "?q=" + Enc(q) + "&limit=25"
    ensures SearchUrlUtf8(k, q) == SearchPath(k) + "?q=" + EncUtf8(q) + "&limit=25"
  {
    LimitText();
  }

  lemma QueryClean(q: string)
    ensures '?' !in EncUtf8(q) && '&' !in EncUtf8(q)
  {
    EncUtf8NoDelimiters(q);
    assert !IsEncodedChar('?') && !IsEncodedChar('&');
  }

  lemma QuerySplit(path: string, e: string)
    requires '?' !in path && '?' !in e && '&' !in e
    ensures var parts := Split(path + "?q=" + e + "&limit=25", '?');
            && parts == [path, "q=" + e + "&limit=25"]
            && Split(parts[1], '&') == ["q=" + e, "limit=25"]
            && Split(parts[1], '&')[0][2..] == e
  {
    var v := "q=" + e;
    var query := v + "&limit=25";
    QueryShape(path, e);
    SplitTwo(path, '?', query);
    SplitTwo(v, '&', "limit=25");
  }

  lemma QueryShape(path: string, e: string)
    requires '?' !in path && '?' !in e && '&' !in e
    ensures path + "?q=" + e + "&limit=25" == path + ['?'] + ("q=" + e + "&limit=25")
    ensures "q=" + e + "&limit=25" == ("q=" + e) + ['&'] + "limit=25"
    ensures '?' !in "q=" + e + "&limit=25" && '&' !in "q=" + e && '&' !in "limit=25"
    ensures ("q=" + e)[2..] == e
  {
  }

  function ArtistAlbumsUrl(a: Artist): string
  {
    API + "/artist/" + NatToString(a.id) + "/albums?limit=100"
  }

  function AlbumTracksUrl(a: Album): string
  {
    API + "/album/" + NatToString(a.id) + "/tracks?limit=100"
  }

  // ---------------------------------------------------------------- requests

  function SearchArtists(q: string, net: string -> HttpOutcome<seq<DzArtist>>): (r: Result<seq<Artist>>)
    ensures r.Ok? <==> net(SearchUrl(ArtistSearch, q)).Body?
    ensures r.Ok? ==> var data := net(SearchUrl(ArtistSearch, q)).value;
                      |r.value| == |data| && forall i :: 0 <= i < |data| ==> r.value[i] == ArtistFromDz(data[i])
  {
    match Fetch(net(SearchUrl(ArtistSearch, q)), "")
    case Ok(data) => Ok(seq(|data|, i requires 0 <= i < |data| => ArtistFromDz(data[i])))
    case Err(e) => Err(e)
  }

  function SearchAlbums(q: string, net: string -> HttpOutcome<seq<DzAlbum>>): (r: Result<seq<Album>>)
    ensures r.Ok? <==> net(SearchUrl(AlbumSearch, q)).Body?
    ensures r.Ok? ==> var data := net(SearchUrl(AlbumSearch, q)).value;
                      |r.value| == |data| && forall i :: 0 <= i < |data| ==> r.value[i] == AlbumFromDz(data[i])
  {
    match Fetch(net(SearchUrl(AlbumSearch, q)), "")
    case Ok(data) => Ok(seq(|data|, i requires 0 <= i < |data| => AlbumFromDz(data[i])))
    case Err(e) => Err(e)
  }

  /** `search_tracks`: tracks with no album or cover fallback. */
  function SearchTracks(q: string, net: string -> HttpOutcome<seq<DzTrack>>): (r: Result<seq<Track>>)
    ensures r.Ok? <==> net(SearchUrl(TrackSearch, q)).Body?
    ensures r.Ok? ==> var data := net(SearchUrl(TrackSearch, q)).value;
                      |r.value| == |data|
                      && forall i :: 0 <= i < |data| ==> r.value[i] == FromDz(data[i], "", "")
  {
    match Fetch(net(SearchUrl(TrackSearch, q)), "")
    case Ok(data) => Ok(seq(|data|, i requires 0 <= i < |data| => FromDz(data[i], "", "")))
    case Err(e) => Err(e)
  }

  /** `artist_albums`: up to a hundred of the artist's albums, mapped in order. */
  function ArtistAlbums(a: Artist, net: string -> HttpOutcome<seq<DzAlbum>>): (r: Result<seq<Album>>)
    ensures r.Ok? <==> net(ArtistAlbumsUrl(a)).Body?
    ensures r.Ok? ==> var data := net(ArtistAlbumsUrl(a)).value;
                      |r.value| == |data| && forall i :: 0 <= i < |data| ==> r.value[i] == AlbumFromDz(data[i])
    ensures net(ArtistAlbumsUrl(a)).RequestFailed? ==> r == Err("req: " + net(ArtistAlbumsUrl(a)).msg)
  {
    match Fetch(net(ArtistAlbumsUrl(a)), "")
    case Ok(data) => Ok(seq(|data|, i requires 0 <= i < |data| => AlbumFromDz(data[i])))
    case Err(e) => Err(e)
  }

  /** `album_tracks`: every track is marked as an album track and takes the album's title and
      cover as fallbacks. */
  function AlbumTracks(a: Album, net: string -> HttpOutcome<seq<DzTrack>>): (r: Result<seq<Track>>)
    ensures r.Ok? <==> net(AlbumTracksUrl(a)).Body?
    ensures r.Ok? ==>
      var data := net(AlbumTracksUrl(a)).value;
      && |r.value| == |data|
      && forall i :: 0 <= i < |data| ==>
           r.value[i] == FromDz(data[i], a.title, a.coverUrl).(isAlbumTrack := true)
    ensures r.Ok? ==> forall i :: 0 <= i < |r.value| ==>
      && r.value[i].isAlbumTrack
      && r.value[i].title == net(AlbumTracksUrl(a)).value[i].title
    ensures net(AlbumTracksUrl(a)).RequestFailed? ==> r == Err("req: " + net(AlbumTracksUrl(a)).msg)
  {
    match Fetch(net(AlbumTracksUrl(a)), "")
    case Ok(data) =>
      Ok(seq(|data|, i requires 0 <= i < |data| => FromDz(data[i], a.title, a.coverUrl).(isAlbumTrack := true)))
    case Err(e) => Err(e)
  }

  /** What the cover download produced: bytes, a failed request or a failed body read. */
  datatype CoverOutcome = CoverBytes(bytes: seq<byte>) | CoverRequestFailed(msg: string) | CoverReadFailed(msg: string)

  /** `fetch_cover`: an empty URL is refused before any request is made. */
  function FetchCover(url: string, net: string -> CoverOutcome): (r: Result<seq<byte>>)
    ensures url == [] ==> r == Err("no cover url")
    ensures url != [] && net(url).CoverBytes? ==> r == Ok(net(url).bytes)
    ensures url != [] && net(url).CoverRequestFailed? ==> r == Err("cover: " + net(url).msg)
    ensures url != [] && net(url).CoverReadFailed? ==> r == Err("read: " + net(url).msg)
  {
    if url == [] then Err("no cover url")
    else match net(url)
      case CoverBytes(b) => Ok(b)
      case CoverRequestFailed(e) => Err("cover: " + e)
      case CoverReadFailed(e) => Err("read: " + e)
  }
}
