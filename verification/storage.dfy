/**
 * The storage client `AkamaiNetStorage`: it keeps at most one FTP session, reopens it when
 * a `PWD` probe fails, and answers Django's storage questions (does a file exist, how big
 * is it, what is in a directory) from `NLST` and `LIST` replies.
 *
 * Python exceptions become `StorageError` values: the six messages of
 * `AkamaiNetStorageException`, the `ValueError`s, the `AttributeError` of a missing session,
 * and the ftplib errors some methods let through unchanged.
 */
module Storage {
  import opened Wrappers
  import opened Text
  import opened PosixPath
  import opened Remote
  import Listing

  /** One entry of `settings.FILE_STORAGES`. */
  datatype Config = Config(host: string, port: int, user: string, password: string, path: string, mediaUrl: Option<string>)

  datatype StorageError =
    | ConnectionFailed(config: Config)   // 'Connection or login error using data ...'
    | RemoveFailed(name: string)         // 'Error when removing ...'
    | ExistenceUnknown(name: string)     // 'Error when testing existence of ...'
    | DirectoryChainFailed(path: string) // 'Cannot create directory chain ...'
    | RetrieveFailed(name: string)       // 'Error retrieving remote file ...'
    | ListingFailed(path: string)        // 'Error getting listing for ...'
    | SizeNotInteger(token: string)      // ValueError from int() on a size column
    | NotAccessibleViaUrl                // ValueError: no MEDIA_URL configured
    | NoConnection                       // AttributeError: no session object
    | Ftp(error: FtpError)               // an ftplib error passed through

  /** What `exists` makes of the `NLST dirname(name)/` reply. */
  function ExistsAnswer(reply: Result<seq<string>, FtpError>, name: string): (r: Result<bool, StorageError>)
    ensures r.Err? <==> reply == Err(ErrorOther)
    ensures r == Ok(true) <==> reply.Ok? && name in reply.value
  {
    match reply
    case Ok(names) => Ok(name in names)
    case Err(ErrorOther) => Err(ExistenceUnknown(name))
    case Err(_) => Ok(false)
  }

  /** What `_get_dir_details(path, show_folders, show_files)` makes of a `LIST path` reply. */
  function DetailsAnswer(reply: Result<seq<string>, FtpError>, path: string, mode: Listing.Mode)
    : Result<(map<string, int>, map<string, int>), StorageError>
  {
    match reply
    case Err(_) => Err(ListingFailed(path))
    case Ok(lines) =>
      match Listing.DirDetails(lines, path, mode)
      case Err(e) => Err(SizeNotInteger(e.token))
      case Ok(s) => Ok((s.dirs, s.files))
  }

  const NonRecursive := Listing.Mode(false, true, true)

  /** What `size(name)` makes of the `LIST dirname(name)` reply: a listing failure counts as 0. */
  function SizeAnswer(reply: Result<seq<string>, FtpError>, name: string): (r: Result<int, StorageError>)
    ensures reply.Err? ==> r == Ok(0)
    ensures r.Err? ==> r.error.SizeNotInteger?
  {
    match DetailsAnswer(reply, DirName(name), NonRecursive)
    case Err(ListingFailed(_)) => Ok(0)
    case Err(e) => Err(e)
    case Ok((_, files)) => Ok(if BaseName(name) in files then files[BaseName(name)] else 0)
  }

  /** The size `size(name)` reports from a live session at `cwd`. */
  function SizeAt(tree: map<Segments, seq<Entry>>, faults: map<Command, FtpError>, cwd: Segments, name: string): Result<int, StorageError> {
    SizeAnswer(ListAt(tree, faults, cwd, DirName(name)), name)
  }

  /** A name with a directory part that `dirname` and `basename` put back together. */
  predicate HasDirectoryPart(name: string) {
    DirName(name) + "/" + BaseName(name) == name
  }

  /**
   * For a name with a directory part, `exists` is true exactly when its directory lists an
   * entry of that base name.
   */
  lemma ExistsIffListed(es: seq<Entry>, name: string)
    requires HasDirectoryPart(name)
    ensures name in NlstNames(DirName(name) + "/", es) <==> HasName(es, BaseName(name))
  {
    var arg := DirName(name) + "/";
    var names := NlstNames(arg, es);
    if name in names {
      var i :| 0 <= i < |names| && names[i] == name;
      assert arg + es[i].name == arg + BaseName(name);
      assert es[i].name == (arg + es[i].name)[|arg|..];
    }
    if HasName(es, BaseName(name)) {
      var i :| 0 <= i < |es| && es[i].name == BaseName(name);
      assert names[i] == name;
    }
  }

  /**
   * A bare name (`x` or `/x`) is never among the `NLST` names `exists` asks for: its
   * directory part is empty or `/`, so the argument is `/` or `//`, and every name of the
   * reply starts with that argument.
   */
  lemma BareNameNeverListed(es: seq<Entry>, b: string)
    requires '/' !in b
    ensures b !in NlstNames(DirName(b) + "/", es)
    ensures "/" + b !in NlstNames(DirName("/" + b) + "/", es)
  {
    assert LastIndexOf(b, '/') == -1;
    assert DirName(b) == "";
    var p := "/" + b;
    assert LastIndexOf(p, '/') == 0 by {
      assert p[0] == '/';
      forall j | 0 < j < |p| ensures p[j] != '/' {
        assert p[j] == b[j - 1];
        assert b[j - 1] in b;
      }
    }
    assert DirName(p) == "/" by {
      assert p[..1] == "/";
      assert !exists i :: 0 <= i < |"/"| && "/"[i] != '/';
    }
    assert DirName(p) + "/" == "//";
    var names := NlstNames("//", es);
    forall i | 0 <= i < |names| ensures names[i] != p {
      assert names[i] == "//" + es[i].name;
      if |p| >= 2 {
        assert p[1] == b[0] && b[0] in b;
      }
    }
  }

  /**
   * `size` reports what the listing of the directory says: the size of the last file entry
   * of that base name, and 0 when there is none.
   */
  lemma SizeOfListedFile(es: seq<Entry>, name: string)
    requires forall i :: 0 <= i < |es| ==> IsListableName(es[i].name)
    ensures HasEntry(es, BaseName(name), false) ==>
      exists i :: IsLastFile(es, i, BaseName(name)) && SizeAnswer(Ok(FormatEntries(es)), name) == Ok(es[i].size)
    ensures !HasEntry(es, BaseName(name), false) ==> SizeAnswer(Ok(FormatEntries(es)), name) == Ok(0)
  {
    ParseOfListing(es, DirName(name));
    FileSizesContents(es, BaseName(name));
  }

  /**
   * Seen from a session at `cwd`, `size` reports the listed size of the file `name` names
   * when its directory exists, lists only readable names and no command is refused.
   */
  lemma SizeAtListedFile(tree: map<Segments, seq<Entry>>, cwd: Segments, name: string)
    requires Resolve(cwd, DirName(name)) in tree
    requires var es := tree[Resolve(cwd, DirName(name))]; forall i :: 0 <= i < |es| ==> IsListableName(es[i].name)
    ensures var es := tree[Resolve(cwd, DirName(name))];
      && (HasEntry(es, BaseName(name), false) ==> exists i :: IsLastFile(es, i, BaseName(name)) && SizeAt(tree, map[], cwd, name) == Ok(es[i].size))
      && (!HasEntry(es, BaseName(name), false) ==> SizeAt(tree, map[], cwd, name) == Ok(0))
  {
    SizeOfListedFile(tree[Resolve(cwd, DirName(name))], name);
  }

  /**
   * The input that shows `_retrieve_file` looking in the wrong place: from the root, with
   * a 10 MB file `a/b.bin`, `size("a/b.bin")` asked from the root reports its size, but
   * asked from inside `a` (where `_retrieve_file` has moved) it lists `a/a` and reports 0.
   */
  lemma SizeAfterCwdCounterexample()
    ensures var tree := map[[] := [Entry("a", true, 0)], ["a"] := [Entry("b.bin", false, 10000000)]];
      && SizeAt(tree, map[], [], "a/b.bin") == Ok(10000000)
      && SizeAt(tree, map[], Resolve([], DirName("a/b.bin")), "a/b.bin") == Ok(0)
  {
    var tree := map[[] := [Entry("a", true, 0)], ["a"] := [Entry("b.bin", false, 10000000)]];
    var name := "a/b.bin";
    SplitExampleName();
    ResolveSegment([], "a");
    ResolveSegment(["a"], "a");
    assert Resolve([], DirName(name)) == ["a"];
    assert Resolve(["a"], DirName(name)) == ["a", "a"];
    assert SizeAt(tree, map[], ["a"], name) == Ok(0) by {
      assert ListAt(tree, map[], ["a"], DirName(name)) == Err(ErrorPerm);
    }
    var es := [Entry("b.bin", false, 10000000)];
    ExampleNameListable();
    SizeAtListedFile(tree, [], name);
    assert HasEntry(es, "b.bin", false);
  }

  lemma ExampleNameListable()
    ensures IsListableName("b.bin")
  {
    assert IsListableName("b.bin");
  }

  lemma SplitExampleName()
    ensures DirName("a/b.bin") == "a" && BaseName("a/b.bin") == "b.bin"
  {
    var name := "a/b.bin";
    assert LastIndexOf(name, '/') == 1 by {
      assert name[1] == '/';
      assert name[2] != '/' && name[3] != '/' && name[4] != '/' && name[5] != '/' && name[6] != '/';
    }
    assert name[..2] == "a/" && "a/"[0] != '/';
    assert StripTrailingSlashes("a/") == "a" by {
      assert "a/"[..1] == "a";
    }
  }

  /** The storage never renames: a name is always available (and overwritten on save). */
  function GetAvailableName(name: string): (r: string)
    ensures r == name
  {
    name
  }

  // ----- urljoin, for the URL of a stored name -----

  /** Index of the first `://`, if any. */
  function SchemeEnd(s: string): (r: Option<nat>)
    ensures r.Some? ==> r.value + 3 <= |s| && s[r.value..r.value + 3] == "://"
    decreases |s|
  {
    if |s| < 3 then None
    else if s[..3] == "://" then Some(0)
    else match SchemeEnd(s[1..]) case None => None case Some(i) => Some(i + 1)
  }

  /** Index of the first `c` at or after `from`, or `|s|`. */
  function IndexFrom(s: string, c: char, from: nat): (i: nat)
    requires from <= |s|
    ensures from <= i <= |s| && (i < |s| ==> s[i] == c)
    ensures forall j :: from <= j < i ==> s[j] != c
    decreases |s| - from
  {
    if from == |s| || s[from] == c then from else IndexFrom(s, c, from + 1)
  }

  /** Where the path of a URL starts: after `scheme://host`, or at 0 without an authority. */
  function PathStart(base: string): (k: nat)
    ensures k <= |base|
  {
    match SchemeEnd(base)
    case None => 0
    case Some(i) => IndexFrom(base, '/', i + 3)
  }

  /**
   * `urlparse.urljoin(base, ref)` for a reference without scheme, query, fragment or dot
   * segments: an empty reference gives the base; an absolute path replaces the base's
   * path; a relative path replaces the last segment of the base's path.
   */
  function UrlJoin(base: string, ref: string): string {
    var start := PathStart(base);
    if ref == "" then base
    else if ref[0] == '/' then base[..start] + ref
    else if start == |base| && SchemeEnd(base).Some? then base + "/" + ref
    else base[..start + LastIndexOf(base[start..], '/') + 1] + ref
  }

  /** `.replace('\\', '/')`. */
  function ForwardSlashes(s: string): (r: string)
    ensures |r| == |s| && '\\' !in r
    ensures forall i :: 0 <= i < |s| && s[i] != '\\' ==> r[i] == s[i]
  {
    seq(|s|, i requires 0 <= i < |s| => if s[i] == '\\' then '/' else s[i])
  }

  /** A relative name under a base URL that ends in a slash lands right after the base. */
  lemma UrlJoinUnderDirectory(base: string, name: string)
    requires PathStart(base) < |base| && EndsWith(base, '/')
    requires name != "" && name[0] != '/'
    ensures UrlJoin(base, name) == base + name
  {
    var start := PathStart(base);
    var cut := start + LastIndexOf(base[start..], '/') + 1;
    var tail := base[start..];
    assert tail[|tail| - 1] == base[|base| - 1];
    LastSlashOfDirectory(tail);
    assert base[..cut] == base;
    assert UrlJoin(base, name) == base[..cut] + name;
  }

  lemma LastSlashOfDirectory(tail: string)
    requires EndsWith(tail, '/')
    ensures LastIndexOf(tail, '/') == |tail| - 1
  {
    assert tail[|tail| - 1] == '/';
  }

  // ----- what `_mkremdirs` may change in the tree -----

  /** The directories the walk of `parts` from `start` passes through, `start` included. */
  ghost function Chain(start: Segments, parts: seq<string>): set<Segments> {
    set i | 0 <= i <= |parts| :: Walk(start, parts[..i])
  }

  /** How many entries `d` had in `before`: none when it was not there. */
  function ListedBefore(before: map<Segments, seq<Entry>>, d: Segments): nat {
    if d in before then |before[d]| else 0
  }

  /**
   * `after` is `before` with directories of `chain` added: no directory disappears, every
   * new directory is on the chain, every old listing is kept as a prefix, and every entry
   * beyond the old listing is a directory.
   */
  ghost predicate DirectoriesAdded(before: map<Segments, seq<Entry>>, after: map<Segments, seq<Entry>>, chain: set<Segments>) {
    && before.Keys <= after.Keys
    && (forall d :: d in after && d !in before ==> d in chain)
    && (forall d :: d in before ==> before[d] <= after[d])
    && (forall d, k :: d in after && ListedBefore(before, d) <= k < |after[d]| ==> after[d][k].isDir)
  }

  lemma DirectoriesAddedTransitive(a: map<Segments, seq<Entry>>, b: map<Segments, seq<Entry>>, c: map<Segments, seq<Entry>>,
                                   chain: set<Segments>)
    requires DirectoriesAdded(a, b, chain) && DirectoriesAdded(b, c, chain)
    ensures DirectoriesAdded(a, c, chain)
  {
    forall d: Segments, k: int | d in c && ListedBefore(a, d) <= k < |c[d]| ensures c[d][k].isDir {
      if d in b && k < |b[d]| {
        assert b[d] <= c[d];
        assert c[d][k] == b[d][k];
      }
    }
  }

  /** `after` is `before` after one successful `MKD` of `t`: `t` is new and empty, and its parent lists it last. */
  ghost predicate MadeDirectory(before: map<Segments, seq<Entry>>, after: map<Segments, seq<Entry>>, t: Segments) {
    && |t| > 0 && t !in before && t[..|t| - 1] in before
    && after == before[t := []][t[..|t| - 1] := before[t[..|t| - 1]] + [Entry(t[|t| - 1], true, 0)]]
  }

  /** One successful `MKD` of a chain directory adds it and a directory entry in its parent. */
  lemma MkdAddsDirectory(before: map<Segments, seq<Entry>>, after: map<Segments, seq<Entry>>, t: Segments, chain: set<Segments>)
    requires MadeDirectory(before, after, t) && t in chain
    ensures DirectoriesAdded(before, after, chain)
  {
    var parent := t[..|t| - 1];
    forall d: Segments, k: int | d in after && ListedBefore(before, d) <= k < |after[d]| ensures after[d][k].isDir {
      if d == parent {
        assert k == |before[parent]|;
      }
    }
  }

  /** An FTP-backed storage: its configuration, the server and the session it holds. */
  class NetStorage {
    const config: Config
    const server: Server
    /** `self._connection`: the open session, or None. */
    var connection: Connection?

    ghost predicate Valid()
      reads this, server, connection
    {
      server.Valid() && (connection != null ==> connection.server == server && connection.Valid())
    }

    /** The session answers the `PWD` probe of `_start_connection`. */
    predicate Live()
      reads this, connection, server
    {
      connection != null && connection.server == server && connection.Refusal(PWD).None?
    }

    /** A new session gets through connect, login and the `CWD` to the configured path. */
    predicate CanConnect()
      reads server
    {
      CONNECT !in server.faults && LOGIN !in server.faults
      && (config.path != "" ==> 0 < server.sessionLifetime && CWD(config.path) !in server.faults
                                && Resolve([], config.path) in server.tree)
    }

    /** The working directory of a new session. */
    function InitialCwd(): Segments {
      if config.path != "" then Resolve([], config.path) else []
    }

    constructor (config: Config, server: Server)
      requires server.Valid()
      ensures Valid() && this.config == config && this.server == server && connection == null
    {
      this.config := config;
      this.server := server;
      connection := null;
    }

    /**
     * `_start_connection`: keep a session that answers `PWD`, otherwise drop it and open a
     * new one (connect, login, `CWD` to the configured path).
     */
    method StartConnection() returns (r: Outcome<StorageError>)
      requires Valid()
      modifies this, connection
      ensures Valid()
      ensures r.Pass? <==> connection != null
      ensures r.Fail? ==> r.error == ConnectionFailed(config)
      ensures old(Live()) ==> (r.Pass? && connection == old(connection) && connection.cwd == old(connection.cwd)
        && connection.lifetime == old(connection.lifetime) && connection.sent == old(connection.sent) + 1)
      ensures !old(Live()) ==> (r.Pass? <==> CanConnect())
      ensures !old(Live()) && connection != null ==> (fresh(connection) && connection.cwd == InitialCwd()
        && connection.lifetime == server.sessionLifetime)
    {
      if connection != null {
        var probe := connection.Pwd();
        if probe.Err? {
          connection := null;
        }
      }
      if connection == null {
        var ftp := new Connection(server);
        var c := ftp.ConnectAndLogin();
        if c.Fail? {
          return Fail(ConnectionFailed(config));
        }
        if config.path != "" {
          var d := ftp.Cwd(config.path);
          if d.Fail? {
            return Fail(ConnectionFailed(config));
          }
        }
        connection := ftp;
      }
      return Pass;
    }

    /** `disconnect`: `QUIT`, then forget the session; without one, an AttributeError. */
    method Disconnect() returns (r: Outcome<StorageError>)
      requires Valid()
      modifies this, connection
      ensures Valid()
      ensures old(connection) == null ==> r == Fail(NoConnection) && connection == null
      ensures old(connection) != null && old(connection.Refusal(QUIT)).Some? ==>
        r == Fail(Ftp(old(connection.Refusal(QUIT)).value)) && connection == old(connection)
      ensures old(connection) != null && old(connection.Refusal(QUIT)).None? ==>
        r == Pass && connection == null && !old(connection).Open()
    {
      if connection == null {
        return Fail(NoConnection);
      }
      var q := connection.Quit();
      if q.Fail? {
        return Fail(Ftp(q.error));
      }
      connection := null;
      return Pass;
    }

    /**
     * `_mkremdirs`: walk down `path` one `/`-separated part at a time, creating each part that
     * cannot be entered, then go back to where the session was. Whatever happens, the tree
     * only gains directories along that walk.
     */
    method MkRemDirs(path: string) returns (r: Outcome<StorageError>)
      requires Valid() && connection != null
      modifies connection, server
      ensures Valid() && server.faults == old(server.faults)
      ensures DirectoriesAdded(old(server.tree), server.tree, Chain(old(connection.cwd), Split(path, '/')))
      ensures old(connection.Refusal(PWD)).Some? ==>
        r == Fail(Ftp(old(connection.Refusal(PWD)).value)) && server.tree == old(server.tree)
      ensures r.Fail? ==> r.error.Ftp? || r.error == DirectoryChainFailed(path)
      ensures r.Pass? ==> connection.cwd == old(connection.cwd)
      ensures r.Pass? ==> var parts := Split(path, '/');
        forall i :: 0 <= i <= |parts| ==> Walk(old(connection.cwd), parts[..i]) in server.tree
    {
      var pwd := connection.Pwd();
      if pwd.Err? {
        return Fail(Ftp(pwd.error));
      }
      ghost var start := connection.cwd;
      var entered := EnterOrMakeAll(Split(path, '/'));
      if !entered {
        return Fail(DirectoryChainFailed(path));
      }
      ResolvePathString(connection.cwd, start);
      var back := connection.Cwd(pwd.value);
      if back.Fail? {
        return Fail(Ftp(back.error));
      }
      return Pass;
    }

    /** The loop of `_mkremdirs`: enter, or create and enter, each part in turn. */
    method EnterOrMakeAll(parts: seq<string>) returns (entered: bool)
      requires Valid() && connection != null
      requires forall i :: 0 <= i < |parts| ==> '/' !in parts[i]
      modifies connection, server
      ensures Valid() && server.faults == old(server.faults)
      ensures DirectoriesAdded(old(server.tree), server.tree, Chain(old(connection.cwd), parts))
      ensures entered ==> connection.cwd == Walk(old(connection.cwd), parts)
      ensures entered ==> forall i :: 0 <= i <= |parts| ==> Walk(old(connection.cwd), parts[..i]) in server.tree
    {
      ghost var start := connection.cwd;
      ghost var chain := Chain(start, parts);
      for i := 0 to |parts|
        invariant Valid() && server.faults == old(server.faults)
        invariant DirectoriesAdded(old(server.tree), server.tree, chain)
        invariant connection.cwd == Walk(start, parts[..i])
        invariant forall j :: 0 <= j <= i ==> Walk(start, parts[..j]) in server.tree
      {
        assert parts[..i + 1][..i] == parts[..i];
        ghost var before := server.tree;
        ghost var t := Enter(connection.cwd, parts[i]);
        assert t == Walk(start, parts[..i + 1]) && t in chain;
        var step := EnterOrMake(parts[i]);
        if server.tree != before {
          MkdAddsDirectory(before, server.tree, t, chain);
          DirectoriesAddedTransitive(old(server.tree), before, server.tree, chain);
        }
        if !step {
          return false;
        }
        assert before.Keys <= server.tree.Keys;
      }
      assert parts[..|parts|] == parts;
      return true;
    }

    /** One part of `_mkremdirs`: `CWD part`, and when that fails, `MKD part` then `CWD part`. */
    method EnterOrMake(part: string) returns (entered: bool)
      requires Valid() && connection != null && '/' !in part
      modifies connection, server
      ensures Valid() && server.faults == old(server.faults)
      ensures entered ==> connection.cwd == Enter(old(connection.cwd), part) && connection.cwd in server.tree
      ensures server.tree == old(server.tree) || MadeDirectory(old(server.tree), server.tree, Enter(old(connection.cwd), part))
    {
      ResolveSegment(connection.cwd, part);
      var c := connection.Cwd(part);
      if c.Pass? {
        return true;
      }
      var m := connection.Mkd(part);
      if m.Fail? {
        return false;
      }
      c := connection.Cwd(part);
      return c.Pass?;
    }

    /**
     * `exists`: is `name` among the `NLST` names of its directory? A 4xx or 5xx means no.
     * The reply is the one to the session's last command.
     */
    method Exists(name: string) returns (r: Result<bool, StorageError>)
      requires Valid()
      modifies this, connection
      ensures Valid()
      ensures connection == null ==> r == Err(ConnectionFailed(config))
      ensures connection != null ==> (0 < connection.sent
        && r == ExistsAnswer(connection.NlstReplyAt(connection.sent - 1, DirName(name) + "/"), name))
      ensures old(Live()) ==> (connection == old(connection) && connection.cwd == old(connection.cwd)
        && connection.lifetime == old(connection.lifetime))
      ensures !old(Live()) && connection != null ==> fresh(connection) && connection.cwd == InitialCwd()
    {
      var s := StartConnection();
      if s.Fail? {
        return Err(s.error);
      }
      var names := connection.Nlst(DirName(name) + "/");
      match names
      case Ok(ns) => return Ok(name in ns);
      case Err(ErrorOther) => return Err(ExistenceUnknown(name));
      case Err(_) => return Ok(false);
    }

    /**
     * `delete`: nothing happens unless `exists(name)` says yes; then `DELE name`. The ghost
     * `existed` is what `exists` answered and `checkedAt` the directory its `NLST` was
     * resolved from. `DELE` runs from that directory, or from the configured path when the
     * session died in between and `_start_connection` opened a new one.
     */
    method Delete(name: string) returns (r: Outcome<StorageError>, ghost existed: bool, ghost checkedAt: Segments)
      requires Valid()
      modifies this, connection, server
      ensures Valid() && server.faults == old(server.faults)
      ensures !existed ==> server.tree == old(server.tree)
      ensures !existed && r.Pass? ==>
        !(NlstAt(old(server.tree), server.faults, checkedAt, DirName(name) + "/").Ok?
          && name in NlstAt(old(server.tree), server.faults, checkedAt, DirName(name) + "/").value)
      ensures existed ==>
        NlstAt(old(server.tree), server.faults, checkedAt, DirName(name) + "/").Ok?
        && name in NlstAt(old(server.tree), server.faults, checkedAt, DirName(name) + "/").value
      ensures existed && r.Pass? ==> (connection != null
        && (connection.cwd == checkedAt || connection.cwd == InitialCwd())
        && var t := Resolve(connection.cwd, name);
           |t| > 0 && t[..|t| - 1] in old(server.tree)
           && server.tree == old(server.tree)[t[..|t| - 1] := RemoveFile(old(server.tree)[t[..|t| - 1]], t[|t| - 1])])
      ensures r.Fail? ==> r.error in {ConnectionFailed(config), ExistenceUnknown(name), RemoveFailed(name)}
      ensures r.Fail? ==> server.tree == old(server.tree)
    {
      var e := Exists(name);
      if e.Err? {
        return Fail(e.error), false, [];
      }
      checkedAt := connection.cwd;
      if !e.value {
        return Pass, false, checkedAt;
      }
      var s := StartConnection();
      if s.Fail? {
        return s, true, checkedAt;
      }
      var d := connection.Delete(name);
      if d.Fail? {
        return Fail(RemoveFailed(name)), true, checkedAt;
      }
      return Pass, true, checkedAt;
    }

    /**
     * `_get_dir_details` for a non-recursive `LIST path` on the open session: the directory
     * and file maps the listing parser builds from the reply.
     */
    method GetDirDetails(path: string, showFolders: bool, showFiles: bool)
      returns (r: Result<(map<string, int>, map<string, int>), StorageError>)
      requires Valid() && connection != null
      modifies connection
      ensures Valid()
      ensures connection.sent == old(connection.sent) + 1
        && connection.cwd == old(connection.cwd) && connection.lifetime == old(connection.lifetime)
      ensures r == DetailsAnswer(connection.ListReplyAt(old(connection.sent), path), path, Listing.Mode(false, showFolders, showFiles))
    {
      var reply := connection.RetrLines(path);
      if reply.Err? {
        return Err(ListingFailed(path));
      }
      var parsed := Listing.ParseDirDetails(reply.value, path, Listing.Mode(false, showFolders, showFiles));
      match parsed
      case Err(e) => return Err(SizeNotInteger(e.token));
      case Ok(maps) => return Ok(maps);
    }

    /** `listdir`: the names of the directories and of the files `LIST path` shows. */
    method ListDir(path: string) returns (r: Result<(set<string>, set<string>), StorageError>)
      requires Valid()
      modifies this, connection
      ensures Valid()
      ensures connection == null ==> r == Err(ConnectionFailed(config))
      ensures connection != null ==> (0 < connection.sent
        && r == match DetailsAnswer(connection.ListReplyAt(connection.sent - 1, path), path, NonRecursive)
             case Ok((dirs, files)) => Ok((dirs.Keys, files.Keys))
             case Err(e) => Err(e))
    {
      var s := StartConnection();
      if s.Fail? {
        return Err(s.error);
      }
      var d := GetDirDetails(path, true, true);
      match d
      case Ok((dirs, files)) => return Ok((dirs.Keys, files.Keys));
      case Err(e) => return Err(e);
    }

    /**
     * `size`: the byte count `LIST dirname(name)` gives for `basename(name)`, else 0. The
     * reply is the one to the session's last command.
     */
    method Size(name: string) returns (r: Result<int, StorageError>)
      requires Valid()
      modifies this, connection
      ensures Valid()
      ensures connection == null ==> r == Err(ConnectionFailed(config))
      ensures connection != null ==> (0 < connection.sent
        && r == SizeAnswer(connection.ListReplyAt(connection.sent - 1, DirName(name)), name))
      ensures old(Live()) ==> (connection == old(connection) && connection.cwd == old(connection.cwd)
        && connection.lifetime == old(connection.lifetime))
      ensures !old(Live()) && connection != null ==> fresh(connection) && connection.cwd == InitialCwd()
    {
      var s := StartConnection();
      if s.Fail? {
        return Err(s.error);
      }
      var d := GetDirDetails(DirName(name), true, true);
      match d
      case Err(ListingFailed(_)) => return Ok(0);
      case Err(e) => return Err(e);
      case Ok((_, files)) =>
        return Ok(if BaseName(name) in files then files[BaseName(name)] else 0);
    }

    /** `url`: the configured MEDIA_URL joined with the name, backslashes turned into slashes. */
    function Url(name: string): (r: Result<string, StorageError>)
      ensures r.Err? <==> config.mediaUrl.None?
      ensures r.Err? ==> r.error == NotAccessibleViaUrl
      ensures r.Ok? ==> '\\' !in r.value && r.value == ForwardSlashes(UrlJoin(config.mediaUrl.value, name))
    {
      match config.mediaUrl
      case None => Err(NotAccessibleViaUrl)
      case Some(base) => Ok(ForwardSlashes(UrlJoin(base, name)))
    }

    /**
     * `_retrieve_file` as written: `CWD dirname(name)` first, then `size(name)`, whose
     * `LIST dirname(name)` is then resolved from inside that directory, or from the
     * configured path when `size` had to open a new session. The result is whether the file
     * is read into memory; the ghost `askedFrom` is where that `LIST` was resolved from.
     */
    method RetrieveFileAsWritten(name: string, maxMemorySize: int) returns (r: Result<bool, StorageError>, ghost askedFrom: Segments)
      requires Valid() && connection != null
      modifies this, connection
      ensures Valid()
      ensures r.Ok? ==> connection != null && connection.cwd == old(connection.cwd)
      ensures r.Ok? && connection == old(connection) ==> askedFrom == Resolve(old(connection.cwd), DirName(name))
      ensures r.Ok? && connection != old(connection) ==> fresh(connection) && askedFrom == InitialCwd()
      ensures r.Ok? ==> var size := SizeAt(server.tree, server.faults, askedFrom, name);
        size.Ok? && r.value == (size.value <= maxMemorySize)
    {
      askedFrom := [];
      var pwd := connection.Pwd();
      if pwd.Err? {
        return Err(RetrieveFailed(name)), askedFrom;
      }
      ghost var start := connection.cwd;
      var c := connection.Cwd(DirName(name));
      if c.Fail? {
        return Err(RetrieveFailed(name)), askedFrom;
      }
      var size := Size(name);
      if size.Err? {
        return Err(size.error), askedFrom;
      }
      askedFrom := connection.cwd;
      ghost var listedAt := connection.sent - 1;
      var inMemory := !(size.value > maxMemorySize);
      var got := connection.RetrBinary(BaseName(name));
      if got.Fail? {
        return Err(RetrieveFailed(name)), askedFrom;
      }
      assert connection.ListReplyAt(listedAt, DirName(name)) == ListAt(server.tree, server.faults, askedFrom, DirName(name));
      ResolvePathString(connection.cwd, start);
      var back := connection.Cwd(pwd.value);
      if back.Fail? {
        return Err(RetrieveFailed(name)), askedFrom;
      }
      return Ok(inMemory), askedFrom;
    }

    /**
     * `_retrieve_file` with `size(name)` asked before the session leaves its directory, so
     * the choice between memory and a temporary file follows the file's listed size. The
     * session comes back to the directory it started from, which is the configured path
     * when `size` had to open a new session.
     */
    method RetrieveFile(name: string, maxMemorySize: int) returns (r: Result<bool, StorageError>)
      requires Valid() && connection != null
      modifies this, connection
      ensures Valid()
      ensures r.Ok? && connection == old(connection) ==> connection.cwd == old(connection.cwd)
      ensures r.Ok? && connection != old(connection) ==> connection != null && fresh(connection) && connection.cwd == InitialCwd()
      ensures r.Ok? ==> connection != null && var size := SizeAt(server.tree, server.faults, connection.cwd, name);
        size.Ok? && r.value == (size.value <= maxMemorySize)
    {
      var size := Size(name);
      if size.Err? {
        return Err(size.error);
      }
      ghost var listedAt := connection.sent - 1;
      var inMemory := !(size.value > maxMemorySize);
      var pwd := connection.Pwd();
      if pwd.Err? {
        return Err(RetrieveFailed(name));
      }
      ghost var start := connection.cwd;
      var c := connection.Cwd(DirName(name));
      if c.Fail? {
        return Err(RetrieveFailed(name));
      }
      var got := connection.RetrBinary(BaseName(name));
      if got.Fail? {
        return Err(RetrieveFailed(name));
      }
      ResolvePathString(connection.cwd, start);
      var back := connection.Cwd(pwd.value);
      if back.Fail? {
        return Err(RetrieveFailed(name));
      }
      assert connection.ListReplyAt(listedAt, DirName(name)) == ListAt(server.tree, server.faults, start, DirName(name));
      return Ok(inMemory);
    }
  }
}
