/** String helpers shared by the model: decimal and hexadecimal rendering (Rust's `{}`,
    `{:02}` and `{:02X}` formats), Unicode whitespace, and the `str` methods the source
    calls (`split_whitespace`, `split`, `trim`, `starts_with`, `ends_with`, `contains`,
    `trim_end_matches`, `trim_start_matches`, and `parse` into a float). */
module Text {
  import opened Wrappers

  // ---------------------------------------------------------------- digits

  predicate IsDigit(c: char) { '0' <= c <= '9' }

  predicate AllDigits(s: string) { forall i :: 0 <= i < |s| ==> IsDigit(s[i]) }

  function DigitChar(d: nat): (c: char)
    requires d < 10
    ensures IsDigit(c)
  {
    ('0' as int + d) as char
  }

  function DigitValue(c: char): (d: nat)
    requires IsDigit(c)
    ensures d < 10 && DigitChar(d) == c
  {
    c as int - '0' as int
  }

  /** Rust's `{}` on an unsigned integer: decimal, no padding, no leading zeros. */
  function NatToString(n: nat): (s: string)
    ensures |s| >= 1 && AllDigits(s)
    ensures s[0] == '0' ==> n == 0
    decreases n
  {
    if n < 10 then [DigitChar(n)] else NatToString(n / 10) + [DigitChar(n % 10)]
  }

  /** The value of a string of decimal digits (the empty string is 0). */
  function ParseDigits(s: string): nat
    requires AllDigits(s)
    decreases |s|
  {
    if s == [] then 0 else 10 * ParseDigits(s[..|s| - 1]) + DigitValue(s[|s| - 1])
  }

  lemma {:induction false} ParseNatToString(n: nat)
    ensures ParseDigits(NatToString(n)) == n
    decreases n
  {
    if n >= 10 {
      var s := NatToString(n);
      assert s[..|s| - 1] == NatToString(n / 10);
      ParseNatToString(n / 10);
    }
  }

  /** Distinct numbers render as distinct strings. */
  lemma NatToStringInjective(n: nat, m: nat)
    requires NatToString(n) == NatToString(m)
    ensures n == m
  {
    ParseNatToString(n);
    ParseNatToString(m);
  }

  /** Rust's `{:02}` on an unsigned integer: at least two digits, zero-padded. */
  function Pad2(n: nat): (s: string)
    ensures |s| >= 2 && AllDigits(s)
    ensures n < 100 ==> |s| == 2
  {
    if n < 10 then ['0', DigitChar(n)]
    else
      assert n < 100 ==> NatToString(n) == NatToString(n / 10) + [DigitChar(n % 10)];
      NatToString(n)
  }

  lemma Pad2Value(n: nat)
    ensures ParseDigits(Pad2(n)) == n
  {
    ParseNatToString(n);
    if n < 10 {
      assert Pad2(n)[..1] == "0";
    }
  }

  /** Rust's `{}` on a signed integer. */
  function IntToString(i: int): (s: string)
    ensures |s| >= 1
    ensures i < 0 <==> s[0] == '-'
  {
    if i < 0 then "-" + NatToString(-i) else NatToString(i)
  }

  // ---------------------------------------------------------------- numeric casts

  const U64_MAX: nat := 0xFFFF_FFFF_FFFF_FFFF

  /** Rust's `f as u64` on a float: truncation toward zero, saturating at both ends
      (negative values give 0). */
  function SaturatingU64(x: real): (n: nat)
    ensures n <= U64_MAX
    ensures 0.0 <= x < U64_MAX as real ==> n as real <= x < n as real + 1.0
    ensures x < 0.0 ==> n == 0
  {
    if x < 0.0 then 0 else if x.Floor > U64_MAX then U64_MAX else x.Floor
  }

  // ---------------------------------------------------------------- hexadecimal

  predicate IsUpperHexDigit(c: char) { IsDigit(c) || 'A' <= c <= 'F' }

  function HexDigitChar(d: nat): (c: char)
    requires d < 16
    ensures IsUpperHexDigit(c)
  {
    if d < 10 then DigitChar(d) else ('A' as int + d - 10) as char
  }

  function HexDigitValue(c: char): (d: nat)
    requires IsUpperHexDigit(c)
    ensures d < 16 && HexDigitChar(d) == c
  {
    if IsDigit(c) then DigitValue(c) else c as int - 'A' as int + 10
  }

  /** Upper-case hexadecimal, no padding. */
  function NatToHex(n: nat): (s: string)
    ensures |s| >= 1
    ensures forall i :: 0 <= i < |s| ==> IsUpperHexDigit(s[i])
    ensures n < 16 <==> |s| == 1
    decreases n
  {
    if n < 16 then [HexDigitChar(n)] else NatToHex(n / 16) + [HexDigitChar(n % 16)]
  }

  /** Rust's `{:02X}`: upper-case hexadecimal, at least two digits, zero-padded. */
  function Hex2(n: nat): (s: string)
    ensures |s| >= 2
    ensures forall i :: 0 <= i < |s| ==> IsUpperHexDigit(s[i])
    ensures n < 256 <==> |s| == 2
  {
    if n < 16 then ['0', HexDigitChar(n)]
    else
      assert n >= 256 ==> |NatToHex(n / 16)| >= 2;
      NatToHex(n)
  }

  // ---------------------------------------------------------------- whitespace

  /** Unicode's White_Space property, which Rust's `char::is_whitespace` follows. */
  predicate IsWhitespace(c: char)
  {
    ('\U{0009}' <= c <= '\U{000D}') || c == ' ' || c == '\U{0085}' || c == '\U{00A0}'
    || c == '\U{1680}' || ('\U{2000}' <= c <= '\U{200A}') || c == '\U{2028}' || c == '\U{2029}'
    || c == '\U{202F}' || c == '\U{205F}' || c == '\U{3000}'
  }

  predicate NoWhitespace(s: string) { forall i :: 0 <= i < |s| ==> !IsWhitespace(s[i]) }

  lemma NoWhitespaceConcat(a: string, b: string)
    requires NoWhitespace(a) && NoWhitespace(b)
    ensures NoWhitespace(a + b)
  {
    forall j | 0 <= j < |a + b| ensures !IsWhitespace((a + b)[j]) {
      if j < |a| { assert (a + b)[j] == a[j]; } else { assert (a + b)[j] == b[j - |a|]; }
    }
  }

  /** Length of the longest prefix of `s` without whitespace. */
  function TokenLength(s: string): (k: nat)
    ensures k <= |s| && NoWhitespace(s[..k])
    ensures k < |s| ==> IsWhitespace(s[k])
  {
    if s == [] || IsWhitespace(s[0]) then 0
    else
      var k := 1 + TokenLength(s[1..]);
      assert s[..k] == [s[0]] + s[1..][..k - 1];
      k
  }

  /** Rust's `str::split_whitespace`: the maximal runs of non-whitespace characters. */
  function Words(s: string): seq<string>
    decreases |s|
  {
    if s == [] then []
    else if IsWhitespace(s[0]) then Words(s[1..])
    else
      var k := TokenLength(s);
      [s[..k]] + Words(s[k..])
  }

  /** Every word is non-empty and holds no whitespace. */
  lemma {:induction false} WordsAreWords(s: string)
    ensures forall i :: 0 <= i < |Words(s)| ==> Words(s)[i] != [] && NoWhitespace(Words(s)[i])
    decreases |s|
  {
    if s != [] {
      if IsWhitespace(s[0]) {
        WordsAreWords(s[1..]);
      } else {
        WordsAreWords(s[TokenLength(s)..]);
      }
    }
  }

  /** Leading whitespace does not change the words. */
  lemma WordsSkip(c: char, s: string)
    requires IsWhitespace(c)
    ensures Words([c] + s) == Words(s)
  {
    assert ([c] + s)[1..] == s;
  }

  /** Words of `w + s` when `w` is one word ended by a whitespace character. */
  lemma WordsCons(w: string, c: char, s: string)
    requires w != [] && NoWhitespace(w) && IsWhitespace(c)
    ensures Words(w + [c] + s) == [w] + Words(s)
  {
    var t := w + ([c] + s);
    assert w + [c] + s == t;
    TokenLengthOf(w, [c] + s);
    assert t[0] == w[0];
    assert t[..|w|] == w;
    assert t[|w|..] == [c] + s;
    assert Words(t) == [w] + Words([c] + s);
    WordsSkip(c, s);
  }

  /** Words of a single word. */
  lemma WordsSingle(w: string)
    requires w != [] && NoWhitespace(w)
    ensures Words(w) == [w]
  {
    TokenLengthOf(w, []);
    assert w + [] == w;
    assert w[|w|..] == [];
  }

  /** Words of a word followed by text that starts with whitespace or is empty. */
  lemma WordsToken(w: string, s: string)
    requires w != [] && NoWhitespace(w)
    requires s == [] || IsWhitespace(s[0])
    ensures Words(w + s) == [w] + Words(s)
  {
    if s == [] {
      WordsSingle(w);
      assert w + s == w;
    } else {
      WordsCons(w, s[0], s[1..]);
      assert w + s == w + [s[0]] + s[1..];
      WordsSkip(s[0], s[1..]);
      assert [s[0]] + s[1..] == s;
    }
  }

  /** A run of whitespace in front does not change the words. */
  lemma {:induction false} WordsSkipRun(ws: string, s: string)
    requires forall i :: 0 <= i < |ws| ==> IsWhitespace(ws[i])
    ensures Words(ws + s) == Words(s)
    decreases |ws|
  {
    if ws == [] {
      assert ws + s == s;
    } else {
      WordsSkipRun(ws[1..], s);
      assert ws + s == [ws[0]] + (ws[1..] + s);
      WordsSkip(ws[0], ws[1..] + s);
    }
  }

  lemma {:induction false} TokenLengthOf(w: string, rest: string)
    requires NoWhitespace(w)
    requires rest == [] || IsWhitespace(rest[0])
    ensures TokenLength(w + rest) == |w|
    decreases |w|
  {
    if w == [] {
      assert w + rest == rest;
    } else {
      assert (w + rest)[1..] == w[1..] + rest;
      TokenLengthOf(w[1..], rest);
    }
  }

  /** Rust's `str::trim_start`: drop leading whitespace. */
  function TrimStart(s: string): (r: string)
    ensures |r| <= |s| && r == s[|s| - |r|..]
    ensures r == [] || !IsWhitespace(r[0])
    decreases |s|
  {
    if s != [] && IsWhitespace(s[0]) then TrimStart(s[1..]) else s
  }

  /** Rust's `str::trim_end`: drop trailing whitespace. */
  function TrimEnd(s: string): (r: string)
    ensures |r| <= |s| && r == s[..|r|]
    ensures r == [] || !IsWhitespace(r[|r| - 1])
    decreases |s|
  {
    if s != [] && IsWhitespace(s[|s| - 1]) then TrimEnd(s[..|s| - 1]) else s
  }

  /** Rust's `str::trim`. */
  function Trim(s: string): string { TrimEnd(TrimStart(s)) }

  // ---------------------------------------------------------------- decimal numbers

  function Pow10(e: nat): (r: nat)
    ensures r >= 1
  {
    if e == 0 then 1 else 10 * Pow10(e - 1)
  }

  /** Digits, an optional '.', digits; at least one digit in all. */
  function ParseUnsignedDecimal(s: string): (r: Option<real>)
    ensures r.Some? ==> r.value >= 0.0
  {
    var i := IndexOf(s, '.');
    var ip := s[..i];
    var fp := if i < |s| then s[i + 1..] else [];
    if AllDigits(ip) && AllDigits(fp) && |ip| + |fp| >= 1 then
      Some(ParseDigits(ip) as real + ParseDigits(fp) as real / Pow10(|fp|) as real)
    else None
  }

  /** An optional sign and at least one digit. */
  function ParseExponent(s: string): Option<int>
  {
    var neg := s != [] && s[0] == '-';
    var ds := if s != [] && (s[0] == '+' || s[0] == '-') then s[1..] else s;
    if ds != [] && AllDigits(ds) then
      var v: int := ParseDigits(ds);
      Some(if neg then -v else v)
    else None
  }

  /** Index of the first 'e' or 'E', or `|s|`. */
  function ExponentMark(s: string): (i: nat)
    ensures i <= |s| && forall j :: 0 <= j < i ==> s[j] != 'e' && s[j] != 'E'
    ensures i < |s| ==> s[i] == 'e' || s[i] == 'E'
  {
    if s == [] then 0 else if s[0] == 'e' || s[0] == 'E' then 0 else 1 + ExponentMark(s[1..])
  }

  /** Rust's `str::parse::<f64>` on finite decimal text: an optional sign, a mantissa with at
      least one digit and at most one '.', an optional exponent; the value is exact. */
  function ParseFloat(s: string): Option<real>
  {
    var neg := s != [] && s[0] == '-';
    var body := if s != [] && (s[0] == '+' || s[0] == '-') then s[1..] else s;
    var e := ExponentMark(body);
    var m := ParseUnsignedDecimal(body[..e]);
    var x := if e < |body| then ParseExponent(body[e + 1..]) else Some(0);
    if m.None? || x.None? then None
    else
      var v := if x.value >= 0 then m.value * Pow10(x.value) as real else m.value / Pow10(-x.value) as real;
      Some(if neg then -v else v)
  }

  /** A number written with one decimal, as in "42.0". */
  function Tenths(n: nat, d: nat): string
    requires d < 10
  {
    NatToString(n) + "." + [DigitChar(d)]
  }

  /** Reading "<n>.<d>" back gives n + d/10. */
  lemma ParseTenths(n: nat, d: nat)
    requires d < 10
    ensures ParseFloat(Tenths(n, d)) == Some(n as real + d as real / 10.0)
  {
    var s := Tenths(n, d);
    TenthsPlain(n, d);
    assert ExponentMark(s) == |s|;
    assert s[..|s|] == s;
    TenthsMantissa(n, d);
  }

  /** "<n>.<d>" has no sign, no exponent mark, and one '.', right after the digits of n. */
  lemma TenthsPlain(n: nat, d: nat)
    requires d < 10
    ensures var s := Tenths(n, d);
            && s[0] != '+' && s[0] != '-'
            && (forall j :: 0 <= j < |s| ==> s[j] != 'e' && s[j] != 'E')
            && IndexOf(s, '.') == |NatToString(n)|
  {
    var ns := NatToString(n);
    var s := Tenths(n, d);
    assert forall j :: 0 <= j < |s| ==> s[j] != 'e' && s[j] != 'E' && (j != |ns| ==> s[j] != '.') by {
      forall j | 0 <= j < |s| ensures s[j] != 'e' && s[j] != 'E' && (j != |ns| ==> s[j] != '.') {
        if j < |ns| { assert s[j] == ns[j] && IsDigit(ns[j]); }
      }
    }
    assert s[|ns|] == '.';
  }

  lemma TenthsMantissa(n: nat, d: nat)
    requires d < 10
    ensures ParseUnsignedDecimal(Tenths(n, d)) == Some(n as real + d as real / 10.0)
  {
    var ns := NatToString(n);
    var s := Tenths(n, d);
    TenthsPlain(n, d);
    assert s[..|ns|] == ns && s[|ns| + 1..] == [DigitChar(d)];
    ParseNatToString(n);
    assert ParseDigits([DigitChar(d)]) == d;
  }

  // ---------------------------------------------------------------- search and split

  predicate StartsWith(s: string, p: string) { |p| <= |s| && s[..|p|] == p }

  predicate EndsWith(s: string, p: string) { |p| <= |s| && s[|s| - |p|..] == p }

  /** Rust's `str::contains` with a string pattern. */
  predicate Contains(s: string, sub: string)
    decreases |s|
  {
    StartsWith(s, sub) || (s != [] && Contains(s[1..], sub))
  }

  /** Index of the first `c` in `s`, or `|s|` when there is none. */
  function IndexOf(s: string, c: char): (i: nat)
    ensures i <= |s|
    ensures i < |s| ==> s[i] == c
    ensures forall j :: 0 <= j < i ==> s[j] != c
  {
    if s == [] then 0 else if s[0] == c then 0 else 1 + IndexOf(s[1..], c)
  }

  /** Rust's `str::split` on one character: always at least one piece; pieces hold no `sep`;
      joining them with `sep` gives `s` back (lemma SplitJoin). */
  function Split(s: string, sep: char): (r: seq<string>)
    ensures |r| >= 1
    ensures forall i :: 0 <= i < |r| ==> sep !in r[i]
    decreases |s|
  {
    var i := IndexOf(s, sep);
    if i == |s| then
      assert forall j :: 0 <= j < |s| ==> s[j] != sep;
      [s]
    else
      assert forall j :: 0 <= j < i ==> s[..i][j] != sep;
      [s[..i]] + Split(s[i + 1..], sep)
  }

  /** A string without the separator is one piece. */
  lemma SplitNone(s: string, sep: char)
    requires sep !in s
    ensures Split(s, sep) == [s]
  {
    assert IndexOf(s, sep) == |s|;
  }

  /** The first piece ends at the first separator. */
  lemma SplitCons(a: string, sep: char, b: string)
    requires sep !in a
    ensures Split(a + [sep] + b, sep) == [a] + Split(b, sep)
  {
    var s := a + [sep] + b;
    assert s[|a|] == sep;
    assert forall j :: 0 <= j < |a| ==> s[j] == a[j];
    assert IndexOf(s, sep) == |a|;
    assert s[..|a|] == a && s[|a| + 1..] == b;
  }

  /** Two pieces around the only separator. */
  lemma SplitTwo(a: string, sep: char, b: string)
    requires sep !in a && sep !in b
    ensures Split(a + [sep] + b, sep) == [a, b]
  {
    SplitCons(a, sep, b);
    SplitNone(b, sep);
  }

  /** Joining with a separator, the inverse of Split. */
  function JoinWith(parts: seq<string>, sep: char): string
    requires |parts| >= 1
  {
    if |parts| == 1 then parts[0] else parts[0] + [sep] + JoinWith(parts[1..], sep)
  }

  lemma {:induction false} SplitJoin(s: string, sep: char)
    ensures JoinWith(Split(s, sep), sep) == s
    decreases |s|
  {
    var i := IndexOf(s, sep);
    if i < |s| {
      var rest := Split(s[i + 1..], sep);
      assert Split(s, sep) == [s[..i]] + rest;
      SplitJoin(s[i + 1..], sep);
      assert JoinWith(Split(s, sep), sep) == s[..i] + [sep] + JoinWith(rest, sep);
      assert s == s[..i] + [sep] + s[i + 1..];
    }
  }

  /** Splitting text joined from separator-free pieces gives the pieces back. */
  lemma {:induction false} JoinSplit(parts: seq<string>, sep: char)
    requires |parts| >= 1
    requires forall i :: 0 <= i < |parts| ==> sep !in parts[i]
    ensures Split(JoinWith(parts, sep), sep) == parts
    decreases |parts|
  {
    if |parts| == 1 {
      SplitNone(parts[0], sep);
    } else {
      JoinSplit(parts[1..], sep);
      SplitCons(parts[0], sep, JoinWith(parts[1..], sep));
      assert parts == [parts[0]] + parts[1..];
    }
  }

  /** Every character of a join is the separator or a character of some piece. */
  lemma {:induction false} JoinWithChars(parts: seq<string>, sep: char)
    requires |parts| >= 1
    ensures forall c :: c in JoinWith(parts, sep) ==> c == sep || exists i :: 0 <= i < |parts| && c in parts[i]
    decreases |parts|
  {
    if |parts| > 1 {
      JoinWithChars(parts[1..], sep);
      forall c | c in JoinWith(parts, sep)
        ensures c == sep || exists i :: 0 <= i < |parts| && c in parts[i]
      {
        if c in parts[0] {
        } else if c != sep {
          assert c in JoinWith(parts[1..], sep);
          var i :| 0 <= i < |parts[1..]| && c in parts[1..][i];
          assert c in parts[i + 1];
        }
      }
    }
  }

  /** Rust's `str::trim_end_matches` with a character: drop every trailing `c`. */
  function TrimEndChar(s: string, c: char): (r: string)
    ensures |r| <= |s| && r == s[..|r|]
    ensures r == [] || r[|r| - 1] != c
    ensures forall i :: |r| <= i < |s| ==> s[i] == c
    decreases |s|
  {
    if s != [] && s[|s| - 1] == c then TrimEndChar(s[..|s| - 1], c) else s
  }

  /** Rust's `str::trim_start_matches` with a non-empty string: drop every leading copy of `p`. */
  function TrimStartStr(s: string, p: string): (r: string)
    requires p != []
    ensures |r| <= |s| && r == s[|s| - |r|..]
    ensures !StartsWith(r, p)
    decreases |s|
  {
    if StartsWith(s, p) then TrimStartStr(s[|p|..], p) else s
  }
}
