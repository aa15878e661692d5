/** Unix file paths as text, with the two `std::path` operations the downloader uses. */
module Paths {
  import opened Text

  /** `Path::join` on Unix: an absolute `x` replaces the base; otherwise `x` is appended, with
      a '/' in between unless the base is empty or already ends in one. */
  function Join(base: string, x: string): (p: string)
    ensures StartsWith(x, "/") ==> p == x
    ensures !StartsWith(x, "/") ==> EndsWith(p, x) && StartsWith(p, base)
  {
    if StartsWith(x, "/") then x
    else if base == [] || base[|base| - 1] == '/' then base + x
    else base + "/" + x
  }

  /** A relative name joined to a base ending in no '/' sits right after a new separator. */
  lemma JoinRelative(base: string, x: string)
    requires base != [] && base[|base| - 1] != '/' && !StartsWith(x, "/")
    ensures Join(base, x) == base + "/" + x
    ensures |Join(base, x)| == |base| + 1 + |x|
  {
  }

  /** Index of the last '/' plus one: where the final component starts. */
  function NameStart(p: string): (i: nat)
    ensures i <= |p|
    ensures i > 0 ==> p[i - 1] == '/'
    ensures forall j :: i <= j < |p| ==> p[j] != '/'
  {
    if p == [] then 0
    else if p[|p| - 1] == '/' then |p|
    else NameStart(p[..|p| - 1])
  }

  /** Index of the last '.' of `name` when it is not the first character; `|name|` otherwise
      (the file stem of `std::path`: a leading dot starts a name, not an extension). */
  function StemLength(name: string): (k: nat)
    ensures k <= |name|
    ensures k < |name| ==> 0 < k && name[k] == '.' && forall j :: k < j < |name| ==> name[j] != '.'
    ensures k == |name| ==> forall j :: 0 < j < |name| ==> name[j] != '.'
  {
    if |name| <= 1 then |name|
    else if name[|name| - 1] == '.' then |name| - 1
    else
      var k := StemLength(name[..|name| - 1]);
      if k == |name| - 1 then |name| else k
  }

  /** `Path::with_extension(ext)` for a path whose file name ends in ".mp3": the path up to the
      end of the file stem, a dot, and the new extension. */
  function WithExtension(p: string, ext: string): (r: string)
    requires EndsWith(p, ".mp3")
  {
    var i := NameStart(p);
    p[..i + StemLength(p[i..])] + "." + ext
  }

  /** The temporary output of tagging: "x.mp3" becomes "x.tmp.mp3", and a file named just
      ".mp3" becomes ".mp3.tmp.mp3". Either way it differs from the file it replaces. */
  lemma {:induction false} TmpPathOfMp3(p: string)
    requires EndsWith(p, ".mp3")
    ensures var name := p[NameStart(p)..];
            WithExtension(p, "tmp.mp3") == if name == ".mp3" then p + ".tmp.mp3" else p[..|p| - 4] + ".tmp.mp3"
    ensures WithExtension(p, "tmp.mp3") != p
  {
    var i := NameStart(p);
    var name := p[i..];
    Mp3Tail(p);
    NameOfMp3(p, i);
    Mp3Stem(name);
    TmpCases(p, i + StemLength(name), name == ".mp3");
  }

  /** The two shapes of the new path, once the end of the stem is known. */
  lemma TmpCases(p: string, e: nat, whole: bool)
    requires |p| >= 4 && e == if whole then |p| else |p| - 4
    ensures p[..e] + "." + "tmp.mp3" == if whole then p + ".tmp.mp3" else p[..|p| - 4] + ".tmp.mp3"
    ensures p[..e] + "." + "tmp.mp3" != p
  {
    assert "." + "tmp.mp3" == ".tmp.mp3";
    if whole {
      assert p[..e] == p;
    }
    assert |p[..e] + "." + "tmp.mp3"| == e + 8;
  }

  lemma NameOfMp3(p: string, i: nat)
    requires EndsWith(p, ".mp3") && i <= |p| - 4
    ensures EndsWith(p[i..], ".mp3")
  {
    assert p[i..][|p| - i - 4..] == p[|p| - 4..];
  }

  /** An ".mp3" path has a '.' four characters from its end and no '/' or '.' after it, so
      its file name holds at least the ".mp3". */
  lemma Mp3Tail(p: string)
    requires EndsWith(p, ".mp3")
    ensures p[|p| - 4] == '.' && NameStart(p) <= |p| - 4
    ensures forall j :: |p| - 3 <= j < |p| ==> p[j] != '/' && p[j] != '.'
  {
    Mp3Chars(p);
  }

  lemma Mp3Chars(p: string)
    requires EndsWith(p, ".mp3")
    ensures p[|p| - 4] == '.' && p[|p| - 3] == 'm' && p[|p| - 2] == 'p' && p[|p| - 1] == '3'
  {
    var t := p[|p| - 4..];
    assert t == ".mp3";
    assert p[|p| - 4] == t[0] && p[|p| - 3] == t[1] && p[|p| - 2] == t[2] && p[|p| - 1] == t[3];
  }

  /** The stem of a name ending in ".mp3" stops before that extension, unless the name is
      just ".mp3", which has no extension. */
  lemma Mp3Stem(name: string)
    requires EndsWith(name, ".mp3")
    ensures StemLength(name) == if name == ".mp3" then |name| else |name| - 4
  {
    var n := |name|;
    assert name[n - 4..] == ".mp3";
    forall j | n - 4 <= j < n
      ensures name[j] == ".mp3"[j - (n - 4)]
    {
    }
    var a, b, c := name[..n - 3], name[..n - 2], name[..n - 1];
    assert c[..n - 2] == b && b[..n - 3] == a;
    if n == 4 {
      assert a[..1] == ".";
      assert name == ".mp3";
    } else {
      assert StemLength(a) == n - 4;
    }
  }
}
