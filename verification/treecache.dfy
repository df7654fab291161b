/**
 * The tree cache of the models (`FileSystemManager.retreive` and its helpers): it reads a
 * raw recursive listing line by line and makes sure every listed directory and file has a
 * row in the `FileSystem` table, linked to the row of the directory it was listed under.
 *
 * The table is a map from (kind, storage, path) to the row's name, extension and parent:
 * `Directory.objects.get` and `File.objects.get` each see only their own kind of row.
 */
module TreeCache {
  import opened Wrappers
  import opened Text
  import opened PosixPath
  import opened LsLine

  datatype Kind = DirectoryKind | FileKind

  /** What `<Kind>.objects.get(storage=..., path=...)` looks a row up by. */
  datatype Key = Key(kind: Kind, storage: string, path: string)

  /** A row: its name, its extension (files only) and the path of its parent directory, if any. */
  datatype Node = Node(name: string, ext: string, parent: Option<string>)

  type Store = map<Key, Node>

  datatype CacheError =
    | MissingParent(path: string)   // Directory.DoesNotExist from `_get_directory`
    | LineNotMatched(line: string)  // `ls_line.match` gave None: AttributeError on `.groupdict()`
    | NoSuchStorage(key: string)    // FileStorage.DoesNotExist

  /** The path an entry is stored under: the bare name at the top, else normalised under the cursor. */
  function EntryPath(cursor: string, filename: string): string {
    if cursor == "" then filename else NormPath(cursor + "/" + filename)
  }

  /** `ext[1:]`. */
  function DropDot(ext: string): string {
    if ext == "" then "" else ext[1..]
  }

  /** The name and extension a new row gets for a listed file name. */
  function NewNode(kind: Kind, filename: string, parent: Option<string>): Node {
    match kind
    case DirectoryKind => Node(filename, "", parent)
    case FileKind => Node(SplitExt(filename).0, Lower(DropDot(SplitExt(filename).1)), parent)
  }

  /** `_get_directory`: no parent for the empty path, else the directory row of that path. */
  function ParentOf(store: Store, storage: string, path: string): (r: Result<Option<string>, CacheError>)
    ensures r == Ok(None) <==> path == ""
    ensures r.Ok? && r.value.Some? ==> r.value.value == path && Key(DirectoryKind, storage, path) in store
    ensures r.Err? <==> path != "" && Key(DirectoryKind, storage, path) !in store
  {
    if path == "" then Ok(None)
    else if Key(DirectoryKind, storage, path) in store then Ok(Some(path))
    else Err(MissingParent(path))
  }

  /**
   * `_cache_directory` / `_cache_file`: lookup-or-create. An existing row leaves the table
   * as it is; otherwise exactly one row is added, whose parent is the cursor's directory
   * row (none for the empty cursor), and a missing parent row is an error that adds nothing.
   */
  function Cache(store: Store, kind: Kind, storage: string, cursor: string, filename: string): (r: Result<Store, CacheError>)
    ensures var k := Key(kind, storage, EntryPath(cursor, filename));
      && (k in store ==> r == Ok(store))
      && (r.Err? <==> k !in store && cursor != "" && Key(DirectoryKind, storage, cursor) !in store)
      && (r.Err? ==> r.error == MissingParent(cursor))
      && (r.Ok? ==> r.value.Keys == store.Keys + {k} && forall k' :: k' in store ==> r.value[k'] == store[k'])
      && (r.Ok? && k !in store ==>
            && (r.value[k].parent.None? <==> cursor == "")
            && (r.value[k].parent.Some? ==> r.value[k].parent.value == cursor && Key(DirectoryKind, storage, cursor) in store))
  {
    var k := Key(kind, storage, EntryPath(cursor, filename));
    if k in store then Ok(store)
    else
      match ParentOf(store, storage, cursor)
      case Err(e) => Err(e)
      case Ok(parent) => Ok(store[k := NewNode(kind, filename, parent)])
  }

  /**
   * The row `Cache` adds is named as `_cache_directory` and `_cache_file` name it: a
   * directory by the listed name, a file by the `splitext` root, with the extension
   * without its dot, lowercased.
   */
  lemma CacheNames(store: Store, kind: Kind, storage: string, cursor: string, filename: string)
    requires Cache(store, kind, storage, cursor, filename).Ok?
    requires Key(kind, storage, EntryPath(cursor, filename)) !in store
    ensures var row := Cache(store, kind, storage, cursor, filename).value[Key(kind, storage, EntryPath(cursor, filename))];
      && (kind == DirectoryKind ==> row.name == filename && row.ext == "")
      && (kind == FileKind ==> row.name == FilenameParts(filename).0 && row.ext == Lower(FilenameParts(filename).1))
  {
  }

  /** The kind of row a matched line makes. */
  function KindOf(f: LsFields): Kind {
    if f.directory == 'd' then DirectoryKind else FileKind
  }

  /** The loop's state: the cursor, the table, and the exception that stopped it, if any. */
  datatype Sync = Sync(cursor: string, store: Store, failure: Option<CacheError>)

  /** One pass of `retreive`'s loop. */
  function SyncStep(storage: string, s: Sync, line: string): Sync {
    if s.failure.Some? then s
    else if line == "" then s
    else if EndsWith(line, ':') then s.(cursor := line[..|line| - 1])
    else
      match SplitLine(line)
      case None => s.(failure := Some(LineNotMatched(line)))
      case Some(f) =>
        match Cache(s.store, KindOf(f), storage, s.cursor, f.filename)
        case Err(e) => s.(failure := Some(e))
        case Ok(t) => s.(store := t)
  }

  /** `retreive`'s loop over `lines`; rows written before an exception stay written. */
  function SyncLines(storage: string, s: Sync, lines: seq<string>): Sync
    decreases |lines|
  {
    if lines == [] then s else SyncStep(storage, SyncLines(storage, s, lines[..|lines| - 1]), lines[|lines| - 1])
  }

  /** Once the loop has failed, the later lines change nothing. */
  lemma {:induction false} FailurePersists(storage: string, s: Sync, lines: seq<string>, n: nat)
    requires n <= |lines|
    requires SyncLines(storage, s, lines[..n]).failure.Some?
    ensures SyncLines(storage, s, lines) == SyncLines(storage, s, lines[..n])
    decreases |lines| - n
  {
    if n < |lines| {
      assert lines[..n + 1][..n] == lines[..n];
      FailurePersists(storage, s, lines, n + 1);
    } else {
      assert lines[..n] == lines;
    }
  }

  /**
   * A run that starts at a cursor without a directory row of its own (`retreive` called on
   * a query root that was never cached, over an empty table say) stops at its first entry
   * line with `MissingParent(cursor)` and writes nothing, when that entry has no row of its
   * own yet: `_get_directory` is asked for the cursor's row only after the entry's own
   * lookup misses, and no parentless rows are made. Blank lines before the entry are skipped.
   */
  lemma MissingCursorFailsAtFirstEntry(storage: string, path: string, store: Store, lines: seq<string>, k: nat)
    requires path != "" && Key(DirectoryKind, storage, path) !in store
    requires k < |lines| && forall i :: 0 <= i < k ==> lines[i] == ""
    requires SplitLine(lines[k]).Some? && !EndsWith(lines[k], ':')
    requires var f := SplitLine(lines[k]).value; Key(KindOf(f), storage, EntryPath(path, f.filename)) !in store
    ensures SyncLines(storage, Sync(path, store, None), lines) == Sync(path, store, Some(MissingParent(path)))
  {
    MissingCursorStep(storage, path, store, lines[k]);
    BlanksThenFailure(storage, Sync(path, store, None), lines, k, Sync(path, store, Some(MissingParent(path))));
  }

  /** Blank lines, then a line whose pass raises: the run ends in the state that pass left. */
  lemma BlanksThenFailure(storage: string, s: Sync, lines: seq<string>, k: nat, failed: Sync)
    requires k < |lines| && forall i :: 0 <= i < k ==> lines[i] == ""
    requires SyncStep(storage, s, lines[k]) == failed && failed.failure.Some?
    ensures SyncLines(storage, s, lines) == failed
  {
    BlankRun(storage, s, lines, k);
    SyncPrefixStep(storage, s, lines, k);
    FailurePersists(storage, s, lines, k + 1);
  }

  lemma MissingCursorStep(storage: string, path: string, store: Store, line: string)
    requires path != "" && Key(DirectoryKind, storage, path) !in store
    requires SplitLine(line).Some? && !EndsWith(line, ':')
    requires var f := SplitLine(line).value; Key(KindOf(f), storage, EntryPath(path, f.filename)) !in store
    ensures SyncStep(storage, Sync(path, store, None), line) == Sync(path, store, Some(MissingParent(path)))
  {
  }

  /** Blank lines change nothing. */
  lemma {:induction false} BlankRun(storage: string, s: Sync, lines: seq<string>, k: nat)
    requires k <= |lines| && forall i :: 0 <= i < k ==> lines[i] == ""
    ensures SyncLines(storage, s, lines[..k]) == s
    decreases k
  {
    if k > 0 {
      BlankRun(storage, s, lines, k - 1);
      SyncPrefixStep(storage, s, lines, k - 1);
    } else {
      assert lines[..k] == [];
    }
  }

  // ----- What a successful run leaves behind -----

  /** The cursor after the header lines among `lines` (taken raw, not normalised). */
  function CursorAfter(c: string, lines: seq<string>): string
    decreases |lines|
  {
    if lines == [] then c
    else
      var c' := CursorAfter(c, lines[..|lines| - 1]);
      var line := lines[|lines| - 1];
      if line != "" && EndsWith(line, ':') then line[..|line| - 1] else c'
  }

  /** A line the loop gets through without an exception from the line grammar. */
  predicate Readable(line: string) {
    line == "" || EndsWith(line, ':') || SplitLine(line).Some?
  }

  /** The rows the entry lines of `lines` stand for. */
  function Touched(storage: string, c: string, lines: seq<string>): set<Key>
    decreases |lines|
  {
    if lines == [] then {}
    else
      var line := lines[|lines| - 1];
      var before := Touched(storage, c, lines[..|lines| - 1]);
      if Readable(line) && line != "" && !EndsWith(line, ':') then
        var f := SplitLine(line).value;
        before + {Key(KindOf(f), storage, EntryPath(CursorAfter(c, lines[..|lines| - 1]), f.filename))}
      else before
  }

  /** `small` is part of `big`: every row of `small` is in `big`, unchanged. */
  predicate Within(small: Store, big: Store) {
    forall k :: k in small ==> k in big && big[k] == small[k]
  }

  /**
   * A run without an exception keeps every row it started with, leaves a row for every
   * entry line, and read every line.
   */
  lemma {:induction false} SuccessfulRun(storage: string, c: string, s: Store, lines: seq<string>)
    requires SyncLines(storage, Sync(c, s, None), lines).failure.None?
    ensures var t := SyncLines(storage, Sync(c, s, None), lines);
      && t.cursor == CursorAfter(c, lines)
      && Within(s, t.store)
      && Touched(storage, c, lines) <= t.store.Keys
      && forall i :: 0 <= i < |lines| ==> Readable(lines[i])
    decreases |lines|
  {
    if lines != [] {
      var init := lines[..|lines| - 1];
      var line := lines[|lines| - 1];
      var mid := SyncLines(storage, Sync(c, s, None), init);
      assert mid.failure.None?;
      SuccessfulRun(storage, c, s, init);
      SuccessfulStep(storage, mid, line);
      AllReadable(lines, init);
    }
  }

  lemma AllReadable(lines: seq<string>, init: seq<string>)
    requires lines != [] && init == lines[..|lines| - 1]
    requires forall i :: 0 <= i < |init| ==> Readable(init[i])
    requires Readable(lines[|lines| - 1])
    ensures forall i :: 0 <= i < |lines| ==> Readable(lines[i])
  {
    forall i | 0 <= i < |lines| ensures Readable(lines[i]) {
      if i < |init| {
        assert lines[i] == init[i];
      }
    }
  }

  /** One pass of the loop without an exception: what `SuccessfulRun` needs of it. */
  lemma SuccessfulStep(storage: string, mid: Sync, line: string)
    requires mid.failure.None? && SyncStep(storage, mid, line).failure.None?
    ensures var t := SyncStep(storage, mid, line);
      && t.cursor == (if line != "" && EndsWith(line, ':') then line[..|line| - 1] else mid.cursor)
      && Within(mid.store, t.store)
      && Readable(line)
      && (Readable(line) && line != "" && !EndsWith(line, ':') ==>
            var f := SplitLine(line).value;
            Key(KindOf(f), storage, EntryPath(mid.cursor, f.filename)) in t.store)
  {
  }

  /** A run over lines whose rows all exist already changes nothing and fails nowhere. */
  lemma {:induction false} CoveredRun(storage: string, c: string, u: Store, lines: seq<string>)
    requires forall i :: 0 <= i < |lines| ==> Readable(lines[i])
    requires Touched(storage, c, lines) <= u.Keys
    ensures SyncLines(storage, Sync(c, u, None), lines) == Sync(CursorAfter(c, lines), u, None)
    decreases |lines|
  {
    if lines != [] {
      var init := lines[..|lines| - 1];
      forall i | 0 <= i < |init| ensures Readable(init[i]) {
        assert init[i] == lines[i];
      }
      CoveredRun(storage, c, u, init);
    }
  }

  /**
   * Running `retreive` again over the same listing, from the table the first run left,
   * adds no row, changes none and ends the same way: a run that raised stops again at the
   * same line with the same exception.
   */
  lemma RetreiveIdempotent(storage: string, c: string, s: Store, lines: seq<string>)
    ensures var t := SyncLines(storage, Sync(c, s, None), lines).store;
      SyncLines(storage, Sync(c, t, None), lines) == SyncLines(storage, Sync(c, s, None), lines)
  {
    var run := SyncLines(storage, Sync(c, s, None), lines);
    if run.failure.None? {
      SuccessfulRun(storage, c, s, lines);
      CoveredRun(storage, c, run.store, lines);
    } else {
      FailedRunIdempotent(storage, c, s, lines);
    }
  }

  /** `RetreiveIdempotent` for a first run that raised. */
  lemma FailedRunIdempotent(storage: string, c: string, s: Store, lines: seq<string>)
    requires SyncLines(storage, Sync(c, s, None), lines).failure.Some?
    ensures var t := SyncLines(storage, Sync(c, s, None), lines).store;
      SyncLines(storage, Sync(c, t, None), lines) == SyncLines(storage, Sync(c, s, None), lines)
  {
    var run := SyncLines(storage, Sync(c, s, None), lines);
    var n := FirstFailure(storage, Sync(c, s, None), lines);
    var before := SyncLines(storage, Sync(c, s, None), lines[..n]);
    SuccessfulRun(storage, c, s, lines[..n]);
    FailurePersists(storage, Sync(c, s, None), lines, n + 1);
    SyncPrefixStep(storage, Sync(c, s, None), lines, n);
    FailedStepKeepsStore(storage, before, lines[n]);
    CoveredRun(storage, c, run.store, lines[..n]);
    SyncPrefixStep(storage, Sync(c, run.store, None), lines, n);
    FailurePersists(storage, Sync(c, run.store, None), lines, n + 1);
  }

  /** A pass of the loop that raises writes nothing. */
  lemma FailedStepKeepsStore(storage: string, mid: Sync, line: string)
    requires SyncStep(storage, mid, line).failure.Some?
    ensures SyncStep(storage, mid, line).store == mid.store
  {
  }

  /** The run over one more line of the listing is one more step. */
  lemma SyncPrefixStep(storage: string, s: Sync, lines: seq<string>, n: nat)
    requires n < |lines|
    ensures SyncLines(storage, s, lines[..n + 1]) == SyncStep(storage, SyncLines(storage, s, lines[..n]), lines[n])
  {
    assert lines[..n + 1][..n] == lines[..n];
  }

  /** A run that raised has a first line at which it raised. */
  lemma FirstFailure(storage: string, s: Sync, lines: seq<string>) returns (n: nat)
    requires s.failure.None? && SyncLines(storage, s, lines).failure.Some?
    ensures n < |lines|
    ensures SyncLines(storage, s, lines[..n]).failure.None?
    ensures SyncLines(storage, s, lines[..n + 1]).failure.Some?
  {
    n := 0;
    assert lines[..0] == [];
    while n < |lines| && SyncLines(storage, s, lines[..n + 1]).failure.None?
      invariant n <= |lines|
      invariant SyncLines(storage, s, lines[..n]).failure.None?
      decreases |lines| - n
    {
      n := n + 1;
    }
    if n == |lines| {
      WholePrefix(lines);
      assert false;
    }
  }

  /** The prefix as long as a listing is the listing. */
  lemma WholePrefix(lines: seq<string>)
    ensures lines[..|lines|] == lines
  {
  }

  /** Every row's parent is a directory row of the same storage. */
  predicate ParentsPresent(store: Store) {
    forall k :: k in store && store[k].parent.Some? ==> Key(DirectoryKind, k.storage, store[k].parent.value) in store
  }

  /** Adding a row under an existing parent keeps every row linked. */
  lemma CacheKeepsParents(store: Store, kind: Kind, storage: string, cursor: string, filename: string)
    requires ParentsPresent(store) && Cache(store, kind, storage, cursor, filename).Ok?
    ensures ParentsPresent(Cache(store, kind, storage, cursor, filename).value)
  {
    var r := Cache(store, kind, storage, cursor, filename).value;
    forall k | k in r && r[k].parent.Some?
      ensures Key(DirectoryKind, k.storage, r[k].parent.value) in r
    {
      if k in store {
        assert r[k] == store[k];
      }
    }
  }

  /** One pass of the loop keeps every row linked. */
  lemma StepKeepsParents(storage: string, mid: Sync, line: string)
    requires ParentsPresent(mid.store)
    ensures ParentsPresent(SyncStep(storage, mid, line).store)
  {
    var r := SyncStep(storage, mid, line);
    if mid.failure.Some? || line == "" || EndsWith(line, ':') || SplitLine(line).None? {
      assert r.store == mid.store;
    } else {
      var f := SplitLine(line).value;
      var c := Cache(mid.store, KindOf(f), storage, mid.cursor, f.filename);
      if c.Ok? {
        CacheKeepsParents(mid.store, KindOf(f), storage, mid.cursor, f.filename);
        assert r.store == c.value;
      } else {
        assert r.store == mid.store;
      }
    }
  }

  /** The loop keeps every row linked to an existing directory row, even when it stops early. */
  lemma {:induction false} SyncKeepsParents(storage: string, s: Sync, lines: seq<string>)
    requires ParentsPresent(s.store)
    ensures ParentsPresent(SyncLines(storage, s, lines).store)
    decreases |lines|
  {
    if lines != [] {
      var init := lines[..|lines| - 1];
      SyncKeepsParents(storage, s, init);
      StepKeepsParents(storage, SyncLines(storage, s, init), lines[|lines| - 1]);
    }
  }

  // ----- The manager and the File row -----

  class FileSystemManager {
    /** The `FileSystem` rows. */
    var store: Store
    /** The `config_name`s of the `FileStorage` rows. */
    var storages: set<string>

    constructor (storages: set<string>)
      ensures store == map[] && this.storages == storages
    {
      store := map[];
      this.storages := storages;
    }

    /** `_get_directory`. */
    function GetDirectory(storage: string, path: string): (r: Result<Option<string>, CacheError>)
      reads this
      ensures r.Ok? && r.value.Some? ==> Key(DirectoryKind, storage, r.value.value) in store
      ensures r.Err? <==> path != "" && Key(DirectoryKind, storage, path) !in store
    {
      ParentOf(store, storage, path)
    }

    /** `_cache_directory`: the row of the listed directory, created when missing. */
    method CacheDirectory(storage: string, currentPath: string, ln: LsFields) returns (r: Result<Key, CacheError>)
      modifies this
      ensures storages == old(storages)
      ensures var k := Key(DirectoryKind, storage, EntryPath(currentPath, ln.filename));
        match Cache(old(store), DirectoryKind, storage, currentPath, ln.filename)
        case Ok(t) => r == Ok(k) && store == t
        case Err(e) => r == Err(e) && store == old(store)
    {
      var path := EntryPath(currentPath, ln.filename);
      var key := Key(DirectoryKind, storage, path);
      if key in store {
        return Ok(key);
      }
      var parent := GetDirectory(storage, currentPath);
      if parent.Err? {
        return Err(parent.error);
      }
      store := store[key := Node(ln.filename, "", parent.value)];
      return Ok(key);
    }

    /** `_cache_file`: the row of the listed file, created when missing, named by `splitext`. */
    method CacheFile(storage: string, currentPath: string, ln: LsFields) returns (r: Result<Key, CacheError>)
      modifies this
      ensures storages == old(storages)
      ensures var k := Key(FileKind, storage, EntryPath(currentPath, ln.filename));
        match Cache(old(store), FileKind, storage, currentPath, ln.filename)
        case Ok(t) => r == Ok(k) && store == t
        case Err(e) => r == Err(e) && store == old(store)
    {
      var path := EntryPath(currentPath, ln.filename);
      var split := SplitExt(ln.filename);
      var key := Key(FileKind, storage, path);
      if key in store {
        return Ok(key);
      }
      var parent := GetDirectory(storage, currentPath);
      if parent.Err? {
        return Err(parent.error);
      }
      store := store[key := Node(split.0, Lower(DropDot(split.1)), parent.value)];
      return Ok(key);
    }

    /**
     * `retreive(storage_key, path)` over the reply `lines` of a recursive listing: the loop
     * of `SyncLines`, stopping at the first exception with the rows written so far.
     */
    method Retreive(storageKey: string, path: string, lines: seq<string>) returns (r: Outcome<CacheError>)
      modifies this
      ensures storages == old(storages)
      ensures storageKey !in storages ==> r == Fail(NoSuchStorage(storageKey)) && store == old(store)
      ensures storageKey in storages ==>
        var run := SyncLines(storageKey, Sync(path, old(store), None), lines);
        store == run.store && r == (if run.failure.Some? then Fail(run.failure.value) else Pass)
    {
      if storageKey !in storages {
        return Fail(NoSuchStorage(storageKey));
      }
      var currentPath := path;
      for i := 0 to |lines|
        invariant storages == old(storages)
        invariant SyncLines(storageKey, Sync(path, old(store), None), lines[..i]) == Sync(currentPath, store, None)
      {
        var line := lines[i];
        assert lines[..i + 1][..i] == lines[..i];
        if line == "" {
          continue;
        } else if EndsWith(line, ':') {
          currentPath := line[..|line| - 1];
          continue;
        }
        var ln := SplitLine(line);
        if ln.None? {
          FailurePersists(storageKey, Sync(path, old(store), None), lines, i + 1);
          return Fail(LineNotMatched(line));
        }
        var item;
        if ln.value.directory == 'd' {
          item := CacheDirectory(storageKey, currentPath, ln.value);
        } else {
          item := CacheFile(storageKey, currentPath, ln.value);
        }
        if item.Err? {
          FailurePersists(storageKey, Sync(path, old(store), None), lines, i + 1);
          return Fail(item.error);
        }
      }
      assert lines[..|lines|] == lines;
      return Pass;
    }
  }

  /** What `set_filename` stores: the `splitext` root, and the extension without its dot. */
  function FilenameParts(filename: string): (parts: (string, string))
    ensures parts.0 == SplitExt(filename).0
    ensures SplitExt(filename).1 == "" ==> parts.1 == ""
    ensures SplitExt(filename).1 != "" ==> SplitExt(filename).1 == "." + parts.1
    ensures '.' !in parts.1 && '/' !in parts.1
  {
    var (root, ext) := SplitExt(filename);
    assert ext == "" || ext == "." + ext[1..];
    (root, if |ext| > 0 && ext[0] == '.' then ext[1..] else ext)
  }

  /** What `get_filename` gives back: name, a dot, extension. */
  function JoinFilename(name: string, ext: string): string {
    name + "." + ext
  }

  /**
   * `filename = f` then reading `filename` gives `f` back when `f` has an extension (by
   * `SplitExtCut`, when its base name has a dot after a non-dot), and `f` with a dot
   * appended otherwise.
   */
  lemma FilenameRoundTrip(filename: string)
    ensures SplitExt(filename).1 != "" ==> JoinFilename(FilenameParts(filename).0, FilenameParts(filename).1) == filename
    ensures SplitExt(filename).1 == "" ==> JoinFilename(FilenameParts(filename).0, FilenameParts(filename).1) == filename + "."
  {
    var (root, ext) := SplitExt(filename);
    if ext != "" {
      assert ext == "." + ext[1..];
    }
  }

  /** A `File` row's naming fields. */
  class File {
    var name: string
    var fileExt: string

    constructor (name: string, fileExt: string)
      ensures this.name == name && this.fileExt == fileExt
    {
      this.name := name;
      this.fileExt := fileExt;
    }

    /** `get_filename`. */
    function GetFilename(): string
      reads this
    {
      JoinFilename(name, fileExt)
    }

    /** `set_filename`: `splitext`, then drop the extension's leading dot. */
    method SetFilename(filename: string)
      modifies this
      ensures (name, fileExt) == FilenameParts(filename)
      ensures SplitExt(filename).1 != "" ==> GetFilename() == filename
    {
      var (root, ext) := SplitExt(filename);
      name := root;
      fileExt := if |ext| > 0 && ext[0] == '.' then ext[1..] else ext;
      FilenameRoundTrip(filename);
    }
  }
}
