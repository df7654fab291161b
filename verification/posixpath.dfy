/**
 * The parts of Python 2 `posixpath` both parsers depend on: `normpath`, `splitext`,
 * `dirname` and `basename`, on `/`-separated byte strings.
 */
module PosixPath {
  import opened Text

  /** A component `normpath` keeps: not empty and not `.`, without a slash. */
  predicate IsKeptComponent(c: string) {
    c != "" && c != "." && '/' !in c
  }

  /**
   * Components in the shape `normpath` leaves them: only kept components, no `..` at all
   * under a root, and otherwise `..` only as a leading run.
   */
  predicate IsNormalComponents(cs: seq<string>, rooted: bool) {
    && (forall i :: 0 <= i < |cs| ==> IsKeptComponent(cs[i]))
    && (forall i :: 0 <= i < |cs| && cs[i] == ".." ==> !rooted)
    && (forall i, j :: 0 <= i < j < |cs| && cs[j] == ".." ==> cs[i] == "..")
  }

  /** One pass of `normpath`'s loop over the components: skip, append or pop. */
  function Push(acc: seq<string>, comp: string, rooted: bool): seq<string> {
    if comp == "" || comp == "." then acc
    else if comp != ".." || (!rooted && |acc| == 0) || (|acc| > 0 && acc[|acc| - 1] == "..") then acc + [comp]
    else if |acc| > 0 then acc[..|acc| - 1]
    else acc
  }

  /** `normpath`'s loop, run over `comps` starting from `acc`. */
  function CollapseFrom(acc: seq<string>, comps: seq<string>, rooted: bool): seq<string>
    decreases |comps|
  {
    if comps == [] then acc
    else Push(CollapseFrom(acc, comps[..|comps| - 1], rooted), comps[|comps| - 1], rooted)
  }

  /** The loop only ever produces components in normal shape. */
  lemma {:induction false} CollapseIsNormal(acc: seq<string>, comps: seq<string>, rooted: bool)
    requires IsNormalComponents(acc, rooted)
    requires forall i :: 0 <= i < |comps| ==> '/' !in comps[i]
    ensures IsNormalComponents(CollapseFrom(acc, comps, rooted), rooted)
  {
    if comps != [] {
      CollapseIsNormal(acc, comps[..|comps| - 1], rooted);
    }
  }

  /** Running the loop over `a + b` is running it over `a`, then over `b`. */
  lemma {:induction false} CollapseAppend(acc: seq<string>, a: seq<string>, b: seq<string>, rooted: bool)
    ensures CollapseFrom(acc, a + b, rooted) == CollapseFrom(CollapseFrom(acc, a, rooted), b, rooted)
  {
    if b == [] {
      assert a + b == a;
    } else {
      assert (a + b)[..|a + b| - 1] == a + b[..|b| - 1];
      CollapseAppend(acc, a, b[..|b| - 1], rooted);
    }
  }

  /** Components already in normal shape go through the loop unchanged. */
  lemma {:induction false} CollapseNormal(cs: seq<string>, rooted: bool)
    requires IsNormalComponents(cs, rooted)
    ensures CollapseFrom([], cs, rooted) == cs
  {
    if cs != [] {
      var init, last := cs[..|cs| - 1], cs[|cs| - 1];
      assert IsNormalComponents(init, rooted);
      CollapseNormal(init, rooted);
      if last == ".." && |init| > 0 {
        assert init[|init| - 1] == cs[|cs| - 2];
      }
      assert Push(init, last, rooted) == init + [last];
      assert init + [last] == cs;
    }
  }

  /** 2 for exactly two leading slashes (POSIX keeps them), 1 for one or three-plus, else 0. */
  function InitialSlashes(p: string): nat {
    if |p| >= 2 && p[0] == '/' && p[1] == '/' && !(|p| >= 3 && p[2] == '/') then 2
    else if |p| >= 1 && p[0] == '/' then 1
    else 0
  }

  function Slashes(n: nat): (s: string)
    ensures |s| == n && forall i :: 0 <= i < n ==> s[i] == '/'
  {
    seq(n, _ => '/')
  }

  /** The components `normpath` keeps for `p`, in order. */
  function NormalComponents(p: string): seq<string> {
    CollapseFrom([], Split(p, '/'), InitialSlashes(p) > 0)
  }

  /**
   * `os.path.normpath`: drop empty and `.` components, resolve `..` against the component
   * before it (dropping it at a root), keep the leading slashes, and give `.` for nothing.
   */
  function NormPath(p: string): (r: string)
    ensures r != ""
    ensures r[0] == '/' <==> (|p| > 0 && p[0] == '/')
  {
    if p == "" then "."
    else
      var comps := NormalComponents(p);
      CollapseIsNormal([], Split(p, '/'), InitialSlashes(p) > 0);
      JoinHead(comps);
      var r := Slashes(InitialSlashes(p)) + Join(comps, '/');
      if r == "" then "." else r
  }

  /** A join of slash-free, non-empty components does not start with a slash. */
  lemma {:induction false} JoinHead(cs: seq<string>)
    requires forall i :: 0 <= i < |cs| ==> IsKeptComponent(cs[i])
    ensures |cs| > 0 ==> |cs[0]| > 0 && |Join(cs, '/')| > 0 && Join(cs, '/')[0] == cs[0][0] && cs[0][0] != '/'
    ensures |cs| == 0 ==> Join(cs, '/') == ""
  {
    if |cs| > 0 {
      assert IsKeptComponent(cs[0]);
      assert cs[0][0] in cs[0];
    }
  }

  /** `normpath` is idempotent: a normalised path is its own normal form. */
  lemma NormPathIdempotent(p: string)
    ensures NormPath(NormPath(p)) == NormPath(p)
  {
    var r := NormPath(p);
    if p == "" {
      assert NormPath(".") == "." by {
        SplitNoSeparator(".", '/');
        assert ["."][..0] == [];
      }
    } else {
      var lead := InitialSlashes(p);
      var rooted := lead > 0;
      var comps := NormalComponents(p);
      CollapseIsNormal([], Split(p, '/'), rooted);
      JoinHead(comps);
      var body := Join(comps, '/');
      if Slashes(lead) + body == "" {
        assert r == ".";
        SplitNoSeparator(".", '/');
      } else {
        assert r == Slashes(lead) + body;
        RenormaliseAfterSlashes(lead, comps, rooted);
      }
    }
  }

  /** Re-normalising `lead` slashes followed by normal components gives the same string back. */
  lemma {:induction false} RenormaliseAfterSlashes(lead: nat, comps: seq<string>, rooted: bool)
    requires lead <= 2 && (lead > 0 <==> rooted)
    requires IsNormalComponents(comps, rooted)
    requires Slashes(lead) + Join(comps, '/') != ""
    ensures NormPath(Slashes(lead) + Join(comps, '/')) == Slashes(lead) + Join(comps, '/')
  {
    var body := Join(comps, '/');
    var r := Slashes(lead) + body;
    JoinHead(comps);
    assert InitialSlashes(r) == lead by {
      if lead == 2 {
        assert r[0] == '/' && r[1] == '/';
        assert |r| >= 3 ==> r[2] == body[0] && body[0] != '/';
      } else if lead == 1 {
        assert r[0] == '/';
        assert |r| >= 2 ==> r[1] == body[0] && body[0] != '/';
      } else {
        assert r[0] == body[0] && body[0] != '/';
      }
    }
    var pieces := if |comps| == 0 then [""] else comps;
    assert Split(body, '/') == pieces by {
      if |comps| == 0 {
        assert body == "";
      } else {
        forall i | 0 <= i < |comps| ensures '/' !in comps[i] {
          assert IsKeptComponent(comps[i]);
        }
        SplitJoin(comps, '/');
      }
    }
    var leadPieces := seq(lead, _ => "");
    assert Split(r, '/') == leadPieces + pieces by {
      SplitAfterSlashes(lead, body);
    }
    assert CollapseFrom([], leadPieces + pieces, rooted) == comps by {
      CollapseAppend([], leadPieces, pieces, rooted);
      CollapseEmptyPieces(lead, rooted);
      if |comps| == 0 {
        assert CollapseFrom([], [""], rooted) == [] by {
          assert [""][..0] == [];
        }
      } else {
        CollapseNormal(comps, rooted);
      }
    }
  }

  /** Empty pieces are skipped by the loop. */
  lemma {:induction false} CollapseEmptyPieces(n: nat, rooted: bool)
    ensures CollapseFrom([], seq(n, _ => ""), rooted) == []
  {
    if n > 0 {
      assert seq(n, _ => "")[..n - 1] == seq(n - 1, _ => "");
      CollapseEmptyPieces(n - 1, rooted);
    }
  }

  /** Splitting `n` leading slashes yields `n` empty pieces before the rest's pieces. */
  lemma {:induction false} SplitAfterSlashes(n: nat, s: string)
    ensures Split(Slashes(n) + s, '/') == seq(n, _ => "") + Split(s, '/')
  {
    if n > 0 {
      assert (Slashes(n) + s)[1..] == Slashes(n - 1) + s;
      SplitAfterSlashes(n - 1, s);
      assert seq(n, _ => "") == [""] + seq(n - 1, _ => "");
    } else {
      assert Slashes(0) + s == s;
    }
  }

  /** Index of the last `c` in `s`, or -1 (Python `str.rfind`). */
  function LastIndexOf(s: string, c: char): (i: int)
    ensures -1 <= i < |s|
    ensures i >= 0 ==> s[i] == c
    ensures forall j :: i < j < |s| ==> s[j] != c
  {
    if s == [] then -1
    else if s[|s| - 1] == c then |s| - 1
    else LastIndexOf(s[..|s| - 1], c)
  }

  predicate AllDots(s: string) {
    forall i :: 0 <= i < |s| ==> s[i] == '.'
  }

  /** What `splitext` can return as the extension: nothing, or a dot then no dot or slash. */
  predicate IsExtension(e: string) {
    e == "" || (e[0] == '.' && forall j :: 0 < j < |e| ==> e[j] != '.' && e[j] != '/')
  }

  /**
   * Where `os.path.splitext` cuts `p`: at the last dot of the last component, unless
   * everything before that dot in the component is dots too (so `.profile` has no
   * extension); `|p|` when there is no extension.
   */
  function ExtensionStart(p: string): (k: nat)
    ensures k <= |p|
    ensures IsExtension(p[k..])
  {
    var sepIndex := LastIndexOf(p, '/');
    var dotIndex := LastIndexOf(p, '.');
    if dotIndex > sepIndex && !AllDots(p[sepIndex + 1 .. dotIndex]) then
      TailAfterLastDot(p, sepIndex, dotIndex);
      dotIndex
    else
      |p|
  }

  lemma TailAfterLastDot(p: string, sepIndex: int, dotIndex: int)
    requires -1 <= sepIndex < dotIndex < |p| && p[dotIndex] == '.'
    requires forall j :: sepIndex < j < |p| ==> p[j] != '/'
    requires forall j :: dotIndex < j < |p| ==> p[j] != '.'
    ensures IsExtension(p[dotIndex..])
  {
    var ext := p[dotIndex..];
    forall j | 0 < j < |ext| ensures ext[j] != '.' && ext[j] != '/' {
      assert ext[j] == p[dotIndex + j];
    }
  }

  /** A base name with an extension: some dot follows a character that is not a dot. */
  predicate HasDotAfterName(b: string) {
    exists i, j :: 0 <= j < i < |b| && b[j] != '.' && b[i] == '.'
  }

  /** When `splitext` cuts before the end, the base name has a dot after a non-dot. */
  lemma ExtensionFound(p: string)
    ensures ExtensionStart(p) < |p| ==> HasDotAfterName(BaseName(p))
  {
    var sepIndex := LastIndexOf(p, '/');
    var dotIndex := LastIndexOf(p, '.');
    assert BaseName(p) == p[sepIndex + 1..];
    if dotIndex > sepIndex && !AllDots(p[sepIndex + 1 .. dotIndex]) {
      NameBeforeDot(p, sepIndex, dotIndex);
    }
  }

  /** When the base name has a dot after a non-dot, `splitext` cuts before the end. */
  lemma ExtensionNotMissed(p: string)
    ensures HasDotAfterName(BaseName(p)) ==> ExtensionStart(p) < |p|
  {
    var sepIndex := LastIndexOf(p, '/');
    var dotIndex := LastIndexOf(p, '.');
    assert BaseName(p) == p[sepIndex + 1..];
    if !(dotIndex > sepIndex && !AllDots(p[sepIndex + 1 .. dotIndex])) {
      NoDotAfterName(p, sepIndex, dotIndex);
    }
  }

  lemma NameBeforeDot(p: string, sepIndex: int, dotIndex: int)
    requires -1 <= sepIndex < dotIndex < |p| && p[dotIndex] == '.'
    requires !AllDots(p[sepIndex + 1 .. dotIndex])
    ensures HasDotAfterName(p[sepIndex + 1..])
  {
    var middle := p[sepIndex + 1 .. dotIndex];
    var b := p[sepIndex + 1..];
    var m :| 0 <= m < |middle| && middle[m] != '.';
    assert b[m] == middle[m];
    assert b[dotIndex - sepIndex - 1] == p[dotIndex];
  }

  lemma NoDotAfterName(p: string, sepIndex: int, dotIndex: int)
    requires sepIndex == LastIndexOf(p, '/') && dotIndex == LastIndexOf(p, '.')
    requires !(dotIndex > sepIndex && !AllDots(p[sepIndex + 1 .. dotIndex]))
    ensures !HasDotAfterName(p[sepIndex + 1..])
  {
    var b := p[sepIndex + 1..];
    forall i, j | 0 <= j < i < |b| && b[i] == '.' ensures b[j] == '.' {
      assert p[sepIndex + 1 + i] == b[i];
      assert sepIndex + 1 + i <= dotIndex;
      var middle := p[sepIndex + 1 .. dotIndex];
      assert middle[j] == b[j];
    }
  }

  /**
   * `os.path.splitext`: (root, ext) with `root + ext == p`. The extension is not empty
   * exactly when the base name has a dot after a non-dot, and then it starts at the last dot.
   */
  function SplitExt(p: string): (r: (string, string))
    ensures r.0 + r.1 == p
    ensures IsExtension(r.1)
  {
    var k := ExtensionStart(p);
    (p[..k], p[k..])
  }

  /**
   * `splitext` finds an extension exactly when the base name has a dot after a non-dot,
   * and the extension then starts at the last dot.
   */
  lemma SplitExtCut(p: string)
    ensures SplitExt(p).1 != "" <==> HasDotAfterName(BaseName(p))
    ensures SplitExt(p).1 != "" ==> |SplitExt(p).0| == LastIndexOf(p, '.')
  {
    ExtensionFound(p);
    ExtensionNotMissed(p);
  }

  /** `os.path.basename`: what follows the last slash. */
  function BaseName(p: string): (b: string)
    ensures '/' !in b
    ensures |b| <= |p| && p[|p| - |b|..] == b
    ensures b == p || p[|p| - |b| - 1] == '/'
  {
    p[LastIndexOf(p, '/') + 1..]
  }

  function StripTrailingSlashes(s: string): string {
    if s != [] && s[|s| - 1] == '/' then StripTrailingSlashes(s[..|s| - 1]) else s
  }

  /** `os.path.dirname`: up to the last slash, with trailing slashes removed unless it is all slashes. */
  function DirName(p: string): string {
    var head := p[..LastIndexOf(p, '/') + 1];
    if head != "" && exists i :: 0 <= i < |head| && head[i] != '/' then StripTrailingSlashes(head) else head
  }
}
