/**
 * POSIX path handling as the optimizer uses it: os.path.basename,
 * os.path.dirname, os.path.join, os.path.splitext and str.lower, on paths
 * written with '/' separators.
 */
module Paths {

  type Path = string

  const Sep: char := '/'

  /** Index of the last occurrence of `c` in `s`, or -1 when there is none (str.rfind). */
  function RFind(s: string, c: char): (r: int)
    ensures -1 <= r < |s|
    ensures r >= 0 ==> s[r] == c
    ensures forall k :: r < k < |s| ==> s[k] != c
  {
    if s == [] then -1
    else if s[|s| - 1] == c then |s| - 1
    else RFind(s[..|s| - 1], c)
  }

  predicate AllSeps(s: string) {
    forall k :: 0 <= k < |s| ==> s[k] == Sep
  }

  /** The final component of `p`: everything after its last separator (os.path.basename). */
  function Basename(p: Path): (r: Path)
    ensures Sep !in r
    ensures |r| <= |p| && p[|p| - |r|..] == r
    ensures |r| < |p| ==> p[|p| - |r| - 1] == Sep
  {
    var i := RFind(p, Sep) + 1;
    assert forall k :: 0 <= k < |p| - i ==> p[i..][k] == p[i + k];
    p[i..]
  }

  /** `s` without its trailing separators (str.rstrip('/')). */
  function RStripSeps(s: string): (r: string)
    ensures r <= s
    ensures r == [] || r[|r| - 1] != Sep
    ensures AllSeps(s[|r|..])
  {
    if s != [] && s[|s| - 1] == Sep then
      var r := RStripSeps(s[..|s| - 1]);
      assert s[|r|..] == s[..|s| - 1][|r|..] + [Sep];
      r
    else s
  }

  /**
   * The directory part of `p` (os.path.dirname): everything before the
   * final component, with the separators that end it removed unless it
   * consists of separators only.
   */
  function Dirname(p: Path): (r: Path)
    ensures r <= p
    ensures |r| + |Basename(p)| <= |p|
    ensures AllSeps(p[|r|..|p| - |Basename(p)|])
    ensures r == [] || r[|r| - 1] != Sep || AllSeps(r)
    ensures var i := |p| - |Basename(p)|; AllSeps(p[..i]) ==> r == p[..i]
  {
    var i := RFind(p, Sep) + 1;
    var head := p[..i];
    if head != [] && !AllSeps(head) then
      var r := RStripSeps(head);
      assert p[|r|..i] == head[|r|..];
      r
    else head
  }

  /** os.path.join(a, b): an absolute `b` replaces `a`; otherwise one separator goes between them. */
  function Join(a: Path, b: Path): Path {
    if |b| > 0 && b[0] == Sep then b
    else if a == [] || a[|a| - 1] == Sep then a + b
    else a + [Sep] + b
  }

  /** The text every path inside directory `d` starts with. */
  function DirPrefix(d: Path): Path {
    if d != [] && d[|d| - 1] == Sep then d else d + [Sep]
  }

  /** `p` lies (at any depth) inside directory `d`. */
  predicate Under(p: Path, d: Path) {
    DirPrefix(d) <= p
  }

  /** Neither directory lies inside the other, and they are not the same directory. */
  predicate Apart(a: Path, b: Path) {
    !(DirPrefix(a) <= DirPrefix(b)) && !(DirPrefix(b) <= DirPrefix(a))
  }

  /** A name as os.listdir returns it: one non-empty component. */
  predicate IsName(f: string) {
    f != [] && Sep !in f
  }

  /**
   * The file name without its last extension (os.path.splitext(name)[0] for
   * a name without separators). A dot preceded only by dots does not start
   * an extension, so ".hidden" keeps its dot.
   */
  function Stem(name: string): (r: string)
    ensures r <= name
  {
    var d := RFind(name, '.');
    if d > 0 && exists k :: 0 <= k < d && name[k] != '.' then name[..d]
    else name
  }

  /** The name without what follows its last dot, dot included; texconv names its output this way. */
  function StripExtension(name: string): (r: string)
    ensures r <= name
    ensures r != name ==> name[|r|] == '.' && forall j :: |r| < j < |name| ==> name[j] != '.'
  {
    var d := RFind(name, '.');
    if d >= 0 then name[..d] else name
  }

  /** ASCII lower-casing of one character. */
  function LowerChar(c: char): char {
    if 'A' <= c <= 'Z' then (c as int + 32) as char else c
  }

  /** str.lower on ASCII letters. */
  function Lower(s: string): (r: string)
    ensures |r| == |s|
    ensures forall k :: 0 <= k < |s| ==> r[k] == LowerChar(s[k])
  {
    if s == [] then [] else Lower(s[..|s| - 1]) + [LowerChar(s[|s| - 1])]
  }

  predicate EndsWith(s: string, suffix: string) {
    |suffix| <= |s| && s[|s| - |suffix|..] == suffix
  }

  // ---- properties ----

  /** The last `c` in `p` is at `i - 1` when `p[i - 1]` is one and none follows it. */
  lemma RFindAt(p: string, c: char, i: nat)
    requires i <= |p|
    requires i > 0 ==> p[i - 1] == c
    requires forall k :: i <= k < |p| ==> p[k] != c
    ensures RFind(p, c) == i - 1
  {
  }

  /** Joining a directory and a name and taking the base name gives the name back. */
  lemma BasenameJoin(d: Path, f: string)
    requires IsName(f)
    ensures Basename(Join(d, f)) == f
  {
    var p := Join(d, f);
    var i := |p| - |f|;
    assert p[i..] == f;
    assert forall k :: i <= k < |p| ==> p[k] != Sep by {
      forall k | i <= k < |p| ensures p[k] != Sep {
        assert p[k] == f[k - i];
      }
    }
    RFindAt(p, Sep, i);
  }

  /** Joining a directory and a name and taking the directory part gives the directory back. */
  lemma DirnameJoin(d: Path, f: string)
    requires d != [] && d[|d| - 1] != Sep
    requires IsName(f)
    ensures Dirname(Join(d, f)) == d
  {
    var p := Join(d, f);
    assert p == d + [Sep] + f;
    BasenameJoin(d, f);
    assert RFind(p, Sep) == |d| by {
      assert p[|d|] == Sep;
    }
    var head := p[..|d| + 1];
    assert head == d + [Sep];
    assert !AllSeps(head) by {
      assert head[|d| - 1] != Sep;
    }
    var r := RStripSeps(head);
    assert RStripSeps(head) == RStripSeps(d);
    assert RStripSeps(d) == d;
  }

  /** A name joined to a non-empty directory lies inside that directory. */
  lemma JoinUnder(d: Path, f: string)
    requires d != []
    requires f == [] || f[0] != Sep
    ensures Join(d, f) == DirPrefix(d) + f
    ensures Under(Join(d, f), d)
  {
  }

  /** Different names joined to the same directory give different paths. */
  lemma JoinInjective(d: Path, f: string, g: string)
    requires d != []
    requires f == [] || f[0] != Sep
    requires g == [] || g[0] != Sep
    requires Join(d, f) == Join(d, g)
    ensures f == g
  {
    JoinUnder(d, f);
    JoinUnder(d, g);
    var n := |DirPrefix(d)|;
    assert f == Join(d, f)[n..];
  }

  /**
   * The stem either ends right before the name's last dot, which follows
   * some character other than a dot, or is the whole name, which then has no
   * dot after such a character.
   */
  lemma StemSplits(name: string)
    ensures var r := Stem(name);
      && (r != name ==>
            && name[|r|] == '.'
            && (forall j :: |r| < j < |name| ==> name[j] != '.')
            && (exists k :: 0 <= k < |r| && r[k] != '.'))
      && (r == name ==>
            forall i, k :: 0 <= k < i < |name| && name[i] == '.' ==> name[k] == '.')
  {
    var d := RFind(name, '.');
    if d > 0 && exists k :: 0 <= k < d && name[k] != '.' {
      var k :| 0 <= k < d && name[k] != '.';
      assert name[..d][k] == name[k];
    }
  }

  /** The stem of a name never contains a separator the name does not. */
  lemma StemIsName(f: string)
    requires IsName(f)
    ensures Sep !in Stem(f)
    ensures Stem(f) != []
  {
    var s := Stem(f);
    StemSplits(f);
    assert forall k :: 0 <= k < |s| ==> s[k] == f[k];
  }

  /** Stripping the extension of `s + ".ext"` gives back `s`. */
  lemma StripAddedExtension(s: string, ext: string)
    requires '.' !in ext
    ensures StripExtension(s + "." + ext) == s
  {
    var n := s + "." + ext;
    assert forall k :: |s| < k < |n| ==> n[k] == ext[k - |s| - 1];
    RFindAt(n, '.', |s| + 1);
    assert n[..|s|] == s;
  }

  /** A name given the ".dds" extension reads as a texture name, whatever its stem. */
  lemma DdsSuffixLowered(s: string)
    ensures EndsWith(Lower(s + ".dds"), ".dds")
  {
    var l := Lower(s + ".dds");
    assert l[|l| - 4..] == ".dds" by {
      forall k | 0 <= k < 4 ensures l[|l| - 4 + k] == ".dds"[k] {
        assert (s + ".dds")[|s| + k] == ".dds"[k];
      }
    }
  }

  /** A joined path ends with the last character of its (non-empty) second part. */
  lemma JoinEnds(a: Path, b: Path)
    requires b != []
    ensures Join(a, b) != [] && Join(a, b)[|Join(a, b)| - 1] == b[|b| - 1]
  {
  }

  /** The stem of `s + "." + ext` is `s` when `s` has a character other than a dot. */
  lemma StemOfExtended(s: string, ext: string)
    requires '.' !in ext
    requires exists k :: 0 <= k < |s| && s[k] != '.'
    ensures Stem(s + "." + ext) == s
  {
    var n := s + "." + ext;
    assert forall k :: |s| < k < |n| ==> n[k] == ext[k - |s| - 1];
    RFindAt(n, '.', |s| + 1);
    var k :| 0 <= k < |s| && s[k] != '.';
    assert n[k] != '.';
    assert n[..|s|] == s;
  }
}
