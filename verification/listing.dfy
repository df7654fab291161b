/**
 * The listing parser of the storage client (`AkamaiNetStorage._get_dir_details`): it reads
 * the lines of a `LIST` or `LIST -R` reply, follows the current-directory cursor set by
 * `<path>:` header lines, and fills a map of directories (to 0) and a map of files (to the
 * byte count the line reports).
 *
 * `ScanLines` is the specification, a left fold of `Step` over the lines; the method
 * `ParseDirDetails` is the loop of the source, proved equal to it. The lemmas say what the
 * two maps hold.
 */
module Listing {
  import opened Wrappers
  import opened Text
  import opened PosixPath

  /** The keyword arguments `recursive`, `show_folders` and `show_files`. */
  datatype Mode = Mode(recursive: bool, showFolders: bool, showFiles: bool)

  /** The loop's variables: the `current_path` cursor and the `dirs` and `files` dicts. */
  datatype Scan = Scan(cursor: string, dirs: map<string, int>, files: map<string, int>)

  /** `int(words[-5])` raised ValueError on this token. */
  datatype ListingError = SizeNotInteger(token: string)

  /** How the loop reads one line, before the mode is taken into account. */
  datatype LineKind =
    | Blank
    | Header(path: string)                      // ends with ':'
    | Dropped                                   // under 6 tokens, or a symlink `a -> b`
    | DirLine(name: string)                     // first token starts with 'd'
    | FileLine(name: string, sizeToken: string) // first token starts with '-'
    | OtherLine                                 // any other first character

  function Classify(line: string): LineKind {
    if line == "" then Blank
    else if EndsWith(line, ':') then Header(line[..|line| - 1])
    else ClassifyWords(Words(line))
  }

  /** How a line that is neither blank nor a header is read from its `split()` tokens. */
  function ClassifyWords(words: seq<string>): LineKind
    requires forall i :: 0 <= i < |words| ==> words[i] != []
  {
    if |words| < 6 || words[|words| - 2] == "->" then Dropped
    else if words[0][0] == 'd' then DirLine(words[|words| - 1])
    else if words[0][0] == '-' then FileLine(words[|words| - 1], words[|words| - 5])
    else OtherLine
  }

  /** The dict key of an entry: the bare name, or in recursive mode the normalised full path. */
  function EntryKey(cursor: string, name: string, recursive: bool): string {
    if recursive then NormPath(cursor + "/" + name) else name
  }

  /** One pass of the loop body. */
  function Step(s: Scan, line: string, mode: Mode): Result<Scan, ListingError> {
    match Classify(line)
    case Header(p) => Ok(s.(cursor := NormPath(p)))
    case DirLine(name) =>
      if mode.showFolders then Ok(s.(dirs := s.dirs[EntryKey(s.cursor, name, mode.recursive) := 0]))
      else Ok(s)
    case FileLine(name, token) =>
      if mode.showFiles then
        match ParseInt(token)
        case None => Err(SizeNotInteger(token))
        case Some(n) => Ok(s.(files := s.files[EntryKey(s.cursor, name, mode.recursive) := n]))
      else Ok(s)
    case _ => Ok(s)
  }

  /** The loop run over `lines` from state `s`; the first ValueError ends it. */
  function ScanLines(s: Scan, lines: seq<string>, mode: Mode): Result<Scan, ListingError>
    decreases |lines|
  {
    if lines == [] then Ok(s)
    else
      match ScanLines(s, lines[..|lines| - 1], mode)
      case Err(e) => Err(e)
      case Ok(t) => Step(t, lines[|lines| - 1], mode)
  }

  /** The state before the first line: the cursor is `normpath(path)`, both maps empty. */
  function Start(path: string): Scan {
    Scan(NormPath(path), map[], map[])
  }

  /** `_get_dir_details(path, ...)` applied to the reply `lines`. */
  function DirDetails(lines: seq<string>, path: string, mode: Mode): Result<Scan, ListingError> {
    ScanLines(Start(path), lines, mode)
  }

  function Maps(r: Result<Scan, ListingError>): Result<(map<string, int>, map<string, int>), ListingError> {
    match r
    case Ok(s) => Ok((s.dirs, s.files))
    case Err(e) => Err(e)
  }

  /** The loop of `_get_dir_details` over the reply lines. */
  method ParseDirDetails(lines: seq<string>, path: string, mode: Mode)
    returns (r: Result<(map<string, int>, map<string, int>), ListingError>)
    ensures r == Maps(DirDetails(lines, path, mode))
  {
    var dirs: map<string, int> := map[];
    var files: map<string, int> := map[];
    var currentPath := NormPath(path);
    for i := 0 to |lines|
      invariant ScanLines(Start(path), lines[..i], mode) == Ok(Scan(currentPath, dirs, files))
    {
      var line := lines[i];
      ghost var before := Scan(currentPath, dirs, files);
      assert ScanLines(Start(path), lines[..i + 1], mode) == Step(before, line, mode) by {
        assert lines[..i + 1][..i] == lines[..i];
      }
      if line == "" {
        continue;
      }
      if EndsWith(line, ':') {
        currentPath := NormPath(line[..|line| - 1]);
        continue;
      }
      var words := Words(line);
      assert Classify(line) == ClassifyWords(words);
      if |words| < 6 {
        continue;
      }
      if words[|words| - 2] == "->" {
        continue;
      }
      if mode.showFolders && words[0][0] == 'd' {
        if !mode.recursive {
          dirs := dirs[words[|words| - 1] := 0];
        } else {
          dirs := dirs[NormPath(currentPath + "/" + words[|words| - 1]) := 0];
        }
      } else if mode.showFiles && words[0][0] == '-' {
        var size := ParseInt(words[|words| - 5]);
        if size.None? {
          ErrorPersists(Start(path), lines, mode, i + 1);
          return Err(SizeNotInteger(words[|words| - 5]));
        }
        if !mode.recursive {
          files := files[words[|words| - 1] := size.value];
        } else {
          files := files[NormPath(currentPath + "/" + words[|words| - 1]) := size.value];
        }
      }
    }
    assert lines[..|lines|] == lines;
    return Ok((dirs, files));
  }

  /** Once a prefix raised, the whole scan raises the same error. */
  lemma {:induction false} ErrorPersists(s: Scan, lines: seq<string>, mode: Mode, k: nat)
    requires k <= |lines| && ScanLines(s, lines[..k], mode).Err?
    ensures ScanLines(s, lines, mode) == ScanLines(s, lines[..k], mode)
    decreases |lines| - k
  {
    if k < |lines| {
      assert lines[..k + 1][..k] == lines[..k];
      ErrorPersists(s, lines, mode, k + 1);
    } else {
      assert lines[..k] == lines;
    }
  }

  // ----- What the maps hold -----

  /** The cursor after reading `lines` from cursor `c`: the last header wins. */
  function CursorAfter(c: string, lines: seq<string>): string
    decreases |lines|
  {
    if lines == [] then c
    else
      match Classify(lines[|lines| - 1])
      case Header(p) => NormPath(p)
      case _ => CursorAfter(c, lines[..|lines| - 1])
  }

  /** Line `i` is a directory (`dir`) or file entry whose key, under the cursor of that point, is `k`. */
  predicate ListedAt(c: string, lines: seq<string>, recursive: bool, dir: bool, i: int, k: string) {
    && 0 <= i < |lines|
    && (if dir then Classify(lines[i]).DirLine? else Classify(lines[i]).FileLine?)
    && k == EntryKey(CursorAfter(c, lines[..i]), Classify(lines[i]).name, recursive)
  }

  lemma ListedAtPrefix(c: string, lines: seq<string>, recursive: bool, dir: bool, i: int, k: string)
    requires 0 <= i < |lines| - 1
    ensures ListedAt(c, lines, recursive, dir, i, k) == ListedAt(c, lines[..|lines| - 1], recursive, dir, i, k)
  {
    assert lines[..|lines| - 1][..i] == lines[..i];
  }

  /** The last line that lists key `k` as a directory (`dir`) or a file, or -1. */
  function LastListed(c: string, lines: seq<string>, recursive: bool, dir: bool, k: string): (i: int)
    ensures -1 <= i < |lines|
    ensures i >= 0 ==> ListedAt(c, lines, recursive, dir, i, k)
    ensures forall j :: i < j < |lines| ==> !ListedAt(c, lines, recursive, dir, j, k)
    decreases |lines|
  {
    if lines == [] then -1
    else if ListedAt(c, lines, recursive, dir, |lines| - 1, k) then |lines| - 1
    else
      var i := LastListed(c, lines[..|lines| - 1], recursive, dir, k);
      forall j | 0 <= j < |lines| - 1 ensures ListedAt(c, lines, recursive, dir, j, k) == ListedAt(c, lines[..|lines| - 1], recursive, dir, j, k) {
        ListedAtPrefix(c, lines, recursive, dir, j, k);
      }
      i
  }

  /** What one pass of the loop body does to the cursor and the two maps. */
  lemma StepEffect(mid: Scan, line: string, mode: Mode, r: Scan)
    requires Step(mid, line, mode) == Ok(r)
    ensures r.cursor == if Classify(line).Header? then NormPath(Classify(line).path) else mid.cursor
    ensures r.dirs ==
      if mode.showFolders && Classify(line).DirLine?
      then mid.dirs[EntryKey(mid.cursor, Classify(line).name, mode.recursive) := 0]
      else mid.dirs
    ensures mode.showFiles && Classify(line).FileLine? ==> ParseInt(Classify(line).sizeToken).Some?
    ensures r.files ==
      if mode.showFiles && Classify(line).FileLine?
      then mid.files[EntryKey(mid.cursor, Classify(line).name, mode.recursive) := ParseInt(Classify(line).sizeToken).value]
      else mid.files
  {
  }

  /** The last listing of `k` is on the last line, or else among the lines before it. */
  lemma LastListedSnoc(c: string, lines: seq<string>, recursive: bool, dir: bool, k: string)
    requires |lines| > 0
    ensures var line := lines[|lines| - 1];
      LastListed(c, lines, recursive, dir, k) ==
        if (if dir then Classify(line).DirLine? else Classify(line).FileLine?) &&
           k == EntryKey(CursorAfter(c, lines[..|lines| - 1]), Classify(line).name, recursive)
        then |lines| - 1
        else LastListed(c, lines[..|lines| - 1], recursive, dir, k)
  {
  }

  /** The cursor after a successful scan is the last header's normalised path. */
  lemma {:induction false} ScanCursor(s: Scan, lines: seq<string>, mode: Mode)
    requires ScanLines(s, lines, mode).Ok?
    ensures ScanLines(s, lines, mode).value.cursor == CursorAfter(s.cursor, lines)
    decreases |lines|
  {
    if lines != [] {
      var init := lines[..|lines| - 1];
      assert ScanLines(s, init, mode).Ok?;
      ScanCursor(s, init, mode);
      StepEffect(ScanLines(s, init, mode).value, lines[|lines| - 1], mode, ScanLines(s, lines, mode).value);
    }
  }

  /**
   * A key is in `dirs` after a successful scan iff it was there or some directory line lists
   * it (folders shown); a listed key maps to 0, any other keeps its value.
   */
  lemma {:induction false} ScanDirs(s: Scan, lines: seq<string>, mode: Mode)
    requires ScanLines(s, lines, mode).Ok?
    ensures forall k :: k in ScanLines(s, lines, mode).value.dirs <==>
      k in s.dirs || (mode.showFolders && LastListed(s.cursor, lines, mode.recursive, true, k) >= 0)
    ensures forall k :: k in ScanLines(s, lines, mode).value.dirs ==>
      ScanLines(s, lines, mode).value.dirs[k] ==
        if mode.showFolders && LastListed(s.cursor, lines, mode.recursive, true, k) >= 0 then 0 else s.dirs[k]
    decreases |lines|
  {
    if lines != [] {
      var init := lines[..|lines| - 1];
      var line := lines[|lines| - 1];
      assert ScanLines(s, init, mode).Ok?;
      ScanDirs(s, init, mode);
      ScanCursor(s, init, mode);
      var mid := ScanLines(s, init, mode).value;
      StepEffect(mid, line, mode, ScanLines(s, lines, mode).value);
      forall k {
        LastListedSnoc(s.cursor, lines, mode.recursive, true, k);
      }
    }
  }

  /**
   * A key is in `files` after a successful scan iff it was there or some file line lists it
   * (files shown); a listed key maps to the size on the LAST line that lists it.
   */
  lemma {:induction false} ScanFiles(s: Scan, lines: seq<string>, mode: Mode)
    requires ScanLines(s, lines, mode).Ok?
    ensures forall k :: k in ScanLines(s, lines, mode).value.files <==>
      k in s.files || (mode.showFiles && LastListed(s.cursor, lines, mode.recursive, false, k) >= 0)
    ensures forall k :: k in ScanLines(s, lines, mode).value.files ==>
      var i := LastListed(s.cursor, lines, mode.recursive, false, k);
      if mode.showFiles && i >= 0 then ParseInt(Classify(lines[i]).sizeToken) == Some(ScanLines(s, lines, mode).value.files[k])
      else ScanLines(s, lines, mode).value.files[k] == s.files[k]
    decreases |lines|
  {
    if lines != [] {
      var init := lines[..|lines| - 1];
      var line := lines[|lines| - 1];
      assert ScanLines(s, init, mode).Ok?;
      ScanFiles(s, init, mode);
      ScanCursor(s, init, mode);
      var mid := ScanLines(s, init, mode).value;
      StepEffect(mid, line, mode, ScanLines(s, lines, mode).value);
      forall k {
        LastListedSnoc(s.cursor, lines, mode.recursive, false, k);
      }
    }
  }

  /**
   * Contents of a successful scan from state `s`: the cursor is the last header's normalised
   * path; a key is in `dirs` iff it was there or some directory line lists it (folders
   * shown), with value 0; a key is in `files` iff it was there or some file line lists it
   * (files shown), and its value is the size on the LAST line that lists it.
   */
  lemma ScanContents(s: Scan, lines: seq<string>, mode: Mode)
    requires ScanLines(s, lines, mode).Ok?
    ensures ScanLines(s, lines, mode).value.cursor == CursorAfter(s.cursor, lines)
    ensures forall k :: k in ScanLines(s, lines, mode).value.dirs <==>
      k in s.dirs || (mode.showFolders && LastListed(s.cursor, lines, mode.recursive, true, k) >= 0)
    ensures forall k :: k in ScanLines(s, lines, mode).value.dirs ==>
      ScanLines(s, lines, mode).value.dirs[k] ==
        if mode.showFolders && LastListed(s.cursor, lines, mode.recursive, true, k) >= 0 then 0 else s.dirs[k]
    ensures forall k :: k in ScanLines(s, lines, mode).value.files <==>
      k in s.files || (mode.showFiles && LastListed(s.cursor, lines, mode.recursive, false, k) >= 0)
    ensures forall k :: k in ScanLines(s, lines, mode).value.files ==>
      var i := LastListed(s.cursor, lines, mode.recursive, false, k);
      if mode.showFiles && i >= 0 then ParseInt(Classify(lines[i]).sizeToken) == Some(ScanLines(s, lines, mode).value.files[k])
      else ScanLines(s, lines, mode).value.files[k] == s.files[k]
  {
    ScanCursor(s, lines, mode);
    ScanDirs(s, lines, mode);
    ScanFiles(s, lines, mode);
  }

  /** `_get_dir_details` with `show_folders` off returns no directories. */
  lemma FoldersHiddenMeansNoDirs(lines: seq<string>, path: string, mode: Mode)
    requires !mode.showFolders && DirDetails(lines, path, mode).Ok?
    ensures DirDetails(lines, path, mode).value.dirs == map[]
  {
    ScanContents(Start(path), lines, mode);
  }

  /** `_get_dir_details` with `show_files` off returns no files. */
  lemma FilesHiddenMeansNoFiles(lines: seq<string>, path: string, mode: Mode)
    requires !mode.showFiles && DirDetails(lines, path, mode).Ok?
    ensures DirDetails(lines, path, mode).value.files == map[]
  {
    ScanContents(Start(path), lines, mode);
  }

  // ----- Failure -----

  /** Line `i` is a file entry whose size token is not an integer. */
  predicate BadSizeAt(lines: seq<string>, i: int) {
    0 <= i < |lines| && Classify(lines[i]).FileLine? && ParseInt(Classify(lines[i]).sizeToken).None?
  }

  /** The parse raises exactly when files are shown and some file line's size is not an integer. */
  lemma {:induction false} ScanFails(s: Scan, lines: seq<string>, mode: Mode)
    ensures ScanLines(s, lines, mode).Err? <==> mode.showFiles && exists i :: BadSizeAt(lines, i)
    decreases |lines|
  {
    if lines != [] {
      var init := lines[..|lines| - 1];
      ScanFails(s, init, mode);
      forall i | 0 <= i < |lines| - 1 ensures BadSizeAt(lines, i) == BadSizeAt(init, i) {
      }
      if BadSizeAt(lines, |lines| - 1) && mode.showFiles && ScanLines(s, init, mode).Ok? {
        assert ScanLines(s, lines, mode).Err?;
      }
    }
  }

  // ----- Lines that do nothing -----

  /** A line that neither moves the cursor nor adds an entry under `mode`. */
  predicate Inert(line: string, mode: Mode) {
    match Classify(line)
    case Blank => true
    case Dropped => true
    case OtherLine => true
    case DirLine(_) => !mode.showFolders
    case FileLine(_, _) => !mode.showFiles
    case Header(_) => false
  }

  lemma InertStep(s: Scan, line: string, mode: Mode)
    requires Inert(line, mode)
    ensures Step(s, line, mode) == Ok(s)
  {
  }

  /** Scanning one more line is one more step. */
  lemma ScanSnoc(s: Scan, lines: seq<string>, line: string, mode: Mode)
    ensures ScanLines(s, lines + [line], mode) ==
      match ScanLines(s, lines, mode)
      case Err(e) => Err(e)
      case Ok(t) => Step(t, line, mode)
  {
    assert (lines + [line])[..|lines|] == lines;
  }

  /**
   * Blank lines, short lines, symlink lines, lines of other kinds and entries of a hidden kind
   * can be removed anywhere from a listing without changing the parse.
   */
  lemma {:induction false} InertLineRemovable(s: Scan, a: seq<string>, line: string, b: seq<string>, mode: Mode)
    requires Inert(line, mode)
    ensures ScanLines(s, a + [line] + b, mode) == ScanLines(s, a + b, mode)
    decreases |b|
  {
    if b == [] {
      assert (a + [line] + b)[..|a|] == a;
      assert a + b == a;
      if ScanLines(s, a, mode).Ok? {
        InertStep(ScanLines(s, a, mode).value, line, mode);
      }
    } else {
      var b' := b[..|b| - 1];
      var x := b[|b| - 1];
      assert a + [line] + b == (a + [line] + b') + [x];
      assert a + b == (a + b') + [x];
      InertLineRemovable(s, a, line, b', mode);
      ScanSnoc(s, a + [line] + b', x, mode);
      ScanSnoc(s, a + b', x, mode);
    }
  }

  // ----- Concatenated blocks -----

  /** Scanning `a + b` is scanning `a`, then `b` from where `a` left off. */
  lemma {:induction false} ScanAppend(s: Scan, a: seq<string>, b: seq<string>, mode: Mode)
    ensures ScanLines(s, a + b, mode) ==
      match ScanLines(s, a, mode)
      case Err(e) => Err(e)
      case Ok(t) => ScanLines(t, b, mode)
    decreases |b|
  {
    if b == [] {
      assert a + b == a;
    } else {
      assert (a + b)[..|a + b| - 1] == a + b[..|b| - 1];
      ScanAppend(s, a, b[..|b| - 1], mode);
    }
  }

  /** Entries already in the maps stay unless overwritten: a scan merges its own entries in. */
  lemma {:induction false} ScanMerges(c: string, d: map<string, int>, f: map<string, int>, b: seq<string>, mode: Mode)
    ensures ScanLines(Scan(c, d, f), b, mode) ==
      match ScanLines(Scan(c, map[], map[]), b, mode)
      case Err(e) => Err(e)
      case Ok(t) => Ok(Scan(t.cursor, d + t.dirs, f + t.files))
    decreases |b|
  {
    if b == [] {
      assert d + map[] == d && f + map[] == f;
    } else {
      var init := b[..|b| - 1];
      var line := b[|b| - 1];
      ScanMerges(c, d, f, init, mode);
      match ScanLines(Scan(c, map[], map[]), init, mode)
      case Err(e) =>
      case Ok(t) =>
        var big := Scan(t.cursor, d + t.dirs, f + t.files);
        assert ScanLines(Scan(c, d, f), b, mode) == Step(big, line, mode);
        assert ScanLines(Scan(c, map[], map[]), b, mode) == Step(t, line, mode);
        match Classify(line)
        case DirLine(name) =>
          var key := EntryKey(t.cursor, name, mode.recursive);
          MergeUpdate(d, t.dirs, key, 0);
        case FileLine(name, token) =>
          var key := EntryKey(t.cursor, name, mode.recursive);
          if ParseInt(token).Some? {
            var n := ParseInt(token).value;
            MergeUpdate(f, t.files, key, n);
          }
        case _ =>
    }
  }

  lemma MergeUpdate(a: map<string, int>, b: map<string, int>, k: string, v: int)
    ensures (a + b)[k := v] == a + b[k := v]
  {
  }

  /** A block that starts with a header line does not depend on the cursor it starts from. */
  lemma {:induction false} HeaderFirstIgnoresCursor(c: string, c': string, d: map<string, int>, f: map<string, int>, b: seq<string>, mode: Mode)
    requires |b| > 0 && Classify(b[0]).Header?
    ensures ScanLines(Scan(c, d, f), b, mode) == ScanLines(Scan(c', d, f), b, mode)
    decreases |b|
  {
    if |b| > 1 {
      HeaderFirstIgnoresCursor(c, c', d, f, b[..|b| - 1], mode);
    } else {
      assert b[..0] == [];
    }
  }

  /**
   * Two listing blocks, the second opening with its own `<path>:` header, parse together to
   * the union of their entries, the second block's winning on a shared key.
   */
  lemma ConcatenatedBlocks(a: seq<string>, b: seq<string>, path: string, path': string, mode: Mode)
    requires |b| > 0 && Classify(b[0]).Header?
    requires DirDetails(a, path, mode).Ok? && DirDetails(b, path', mode).Ok?
    ensures DirDetails(a + b, path, mode) == Ok(Scan(
      DirDetails(b, path', mode).value.cursor,
      DirDetails(a, path, mode).value.dirs + DirDetails(b, path', mode).value.dirs,
      DirDetails(a, path, mode).value.files + DirDetails(b, path', mode).value.files))
  {
    var x := DirDetails(a, path, mode).value;
    ScanAppend(Start(path), a, b, mode);
    ScanMerges(x.cursor, x.dirs, x.files, b, mode);
    HeaderFirstIgnoresCursor(x.cursor, NormPath(path'), map[], map[], b, mode);
  }
}
