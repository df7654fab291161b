/**
 * An abstract FTP server and one control connection to it, standing for the `ftplib.FTP`
 * object the storage client holds. The server keeps a tree of directories, each with the
 * entries its `LIST` reply shows, and a table of commands it refuses (the environment's
 * choice of failures). The connection keeps its own working directory and may have died.
 */
module Remote {
  import opened Wrappers
  import opened Text
  import Listing
  import PosixPath

  /** The ftplib failures the client tells apart: a 4xx reply, a 5xx reply, anything else. */
  datatype FtpError = ErrorTemp | ErrorPerm | ErrorOther

  /** A command as the server sees it; `LIST` is the non-recursive listing. */
  datatype Command =
    | CONNECT | LOGIN | PWD | QUIT
    | CWD(arg: string) | MKD(arg: string) | NLST(arg: string) | LIST(arg: string)
    | DELE(arg: string) | RETR(arg: string)

  /** A path on the server as its components from the root. */
  type Segments = seq<string>

  predicate IsProperSegment(s: string) {
    s != "" && s != "." && s != ".." && '/' !in s
  }

  predicate IsProperPath(p: Segments) {
    forall i :: 0 <= i < |p| ==> IsProperSegment(p[i])
  }

  /** One piece of a path argument applied to a directory: stay, go up (not above the root) or descend. */
  function Enter(dir: Segments, part: string): Segments {
    if part == "" || part == "." then dir
    else if part == ".." then (if |dir| > 0 then dir[..|dir| - 1] else dir)
    else dir + [part]
  }

  function Walk(dir: Segments, parts: seq<string>): Segments
    decreases |parts|
  {
    if parts == [] then dir else Enter(Walk(dir, parts[..|parts| - 1]), parts[|parts| - 1])
  }

  /** The directory a path argument names, from working directory `cwd`. */
  function Resolve(cwd: Segments, p: string): Segments {
    Walk(if |p| > 0 && p[0] == '/' then [] else cwd, Split(p, '/'))
  }

  lemma {:induction false} WalkProper(dir: Segments, parts: seq<string>)
    requires IsProperPath(dir)
    requires forall i :: 0 <= i < |parts| ==> '/' !in parts[i]
    ensures IsProperPath(Walk(dir, parts))
    decreases |parts|
  {
    if parts != [] {
      WalkProper(dir, parts[..|parts| - 1]);
    }
  }

  lemma ResolveProper(cwd: Segments, p: string)
    requires IsProperPath(cwd)
    ensures IsProperPath(Resolve(cwd, p))
  {
    WalkProper(if |p| > 0 && p[0] == '/' then [] else cwd, Split(p, '/'));
  }

  /** The `PWD` reply for a directory. */
  function PathString(d: Segments): string {
    "/" + Join(d, '/')
  }

  lemma {:induction false} WalkProperParts(dir: Segments, parts: seq<string>)
    requires IsProperPath(parts)
    ensures Walk(dir, parts) == dir + parts
    decreases |parts|
  {
    if parts != [] {
      WalkProperParts(dir, parts[..|parts| - 1]);
      assert dir + parts[..|parts| - 1] + [parts[|parts| - 1]] == dir + parts;
    } else {
      assert dir + parts == dir;
    }
  }

  /** `CWD` to the reply of `PWD` comes back to the same directory, from anywhere. */
  lemma ResolvePathString(cwd: Segments, d: Segments)
    requires IsProperPath(d)
    ensures Resolve(cwd, PathString(d)) == d
  {
    var s := PathString(d);
    assert s[0] == '/';
    assert s == [] + ['/'] + Join(d, '/');
    SplitAtSeparator([], '/', Join(d, '/'));
    if d == [] {
      assert Split(s, '/') == ["", ""];
      assert ["", ""][..1] == [""] && [""][..0] == [];
      assert Walk([], [""]) == [];
    } else {
      forall i | 0 <= i < |d| ensures '/' !in d[i] {
        assert IsProperSegment(d[i]);
      }
      SplitJoin(d, '/');
      assert Split(s, '/') == [""] + d;
      WalkAppend([], [""], d);
      assert Walk([], [""]) == [] by { assert [""][..0] == []; }
      WalkProperParts([], d);
    }
  }

  /** A path argument without a slash moves by that one part. */
  lemma ResolveSegment(cwd: Segments, part: string)
    requires '/' !in part
    ensures Resolve(cwd, part) == Enter(cwd, part)
  {
    SplitNoSeparator(part, '/');
    assert !(|part| > 0 && part[0] == '/') by {
      if |part| > 0 { assert part[0] in part; }
    }
    assert [part][..0] == [];
    assert Walk(cwd, [part]) == Enter(Walk(cwd, []), part);
  }

  lemma {:induction false} WalkAppend(dir: Segments, a: seq<string>, b: seq<string>)
    ensures Walk(dir, a + b) == Walk(Walk(dir, a), b)
    decreases |b|
  {
    if b == [] {
      assert a + b == a;
    } else {
      assert (a + b)[..|a + b| - 1] == a + b[..|b| - 1];
      WalkAppend(dir, a, b[..|b| - 1]);
    }
  }

  /** One entry of a directory as the server lists it. */
  datatype Entry = Entry(name: string, isDir: bool, size: nat)

  /** The `LIST` line the server writes for an entry. */
  function FormatEntry(e: Entry): string {
    Join(EntryColumns(e), ' ')
  }

  /** The columns of an entry's line: mode, links, owner, group, size, date, time, name. */
  function EntryColumns(e: Entry): seq<string> {
    [if e.isDir then "drwxr-xr-x" else "-rw-r--r--", "1", "ftp", "ftp",
     NatToString(e.size), "Jan", "01", "00:00", e.name]
  }

  function FormatEntries(es: seq<Entry>): (lines: seq<string>)
    ensures |lines| == |es|
  {
    seq(|es|, i requires 0 <= i < |es| => FormatEntry(es[i]))
  }

  /** The `NLST arg` reply: every entry name, prefixed with the argument as given. */
  function NlstNames(arg: string, es: seq<Entry>): (names: seq<string>)
    ensures |names| == |es|
  {
    seq(|es|, i requires 0 <= i < |es| => arg + es[i].name)
  }

  function RemoveFile(es: seq<Entry>, name: string): seq<Entry>
    decreases |es|
  {
    if es == [] then []
    else
      var rest := RemoveFile(es[..|es| - 1], name);
      var e := es[|es| - 1];
      if e.name == name && !e.isDir then rest else rest + [e]
  }

  predicate HasEntry(es: seq<Entry>, name: string, isDir: bool) {
    exists i :: 0 <= i < |es| && es[i].name == name && es[i].isDir == isDir
  }

  predicate HasName(es: seq<Entry>, name: string) {
    exists i :: 0 <= i < |es| && es[i].name == name
  }

  // ----- What a listing of such entries parses to -----

  /** A name a listing line can carry so that the whitespace parser reads it back. */
  predicate IsListableName(name: string) {
    IsWord(name) && !EndsWith(name, ':')
  }

  /** Directory names of `es`, each to 0, as `_get_dir_details` builds them. */
  function DirNames(es: seq<Entry>): map<string, int>
    decreases |es|
  {
    if es == [] then map[]
    else
      var m := DirNames(es[..|es| - 1]);
      var e := es[|es| - 1];
      if e.isDir then m[e.name := 0] else m
  }

  /** File names of `es` to their sizes; a later entry of the same name wins. */
  function FileSizes(es: seq<Entry>): map<string, int>
    decreases |es|
  {
    if es == [] then map[]
    else
      var m := FileSizes(es[..|es| - 1]);
      var e := es[|es| - 1];
      if !e.isDir then m[e.name := e.size] else m
  }

  /** A name is a key of `DirNames` exactly when a directory entry carries it. */
  lemma {:induction false} DirNamesKeys(es: seq<Entry>, k: string)
    ensures k in DirNames(es) <==> HasEntry(es, k, true)
    decreases |es|
  {
    if es != [] {
      var init := es[..|es| - 1];
      DirNamesKeys(init, k);
      if HasEntry(es, k, true) && !HasEntry(init, k, true) {
        var i :| 0 <= i < |es| && es[i].name == k && es[i].isDir;
      }
      if HasEntry(init, k, true) {
        var i :| 0 <= i < |init| && init[i].name == k && init[i].isDir;
        assert es[i] == init[i];
      }
    }
  }

  /** `es[i]` is the last file entry named `k`. */
  predicate IsLastFile(es: seq<Entry>, i: int, k: string) {
    0 <= i < |es| && es[i].name == k && !es[i].isDir
    && forall j :: i < j < |es| ==> es[j].name != k || es[j].isDir
  }

  /**
   * A name is a key of `FileSizes` exactly when a file entry carries it, and it maps to the
   * size of the last such entry.
   */
  lemma {:induction false} FileSizesContents(es: seq<Entry>, k: string)
    ensures k in FileSizes(es) <==> HasEntry(es, k, false)
    ensures k in FileSizes(es) ==> exists i :: IsLastFile(es, i, k) && FileSizes(es)[k] == es[i].size
    decreases |es|
  {
    if es != [] {
      var init := es[..|es| - 1];
      var last := |es| - 1;
      FileSizesContents(init, k);
      if HasEntry(es, k, false) && !HasEntry(init, k, false) {
        var i :| 0 <= i < |es| && es[i].name == k && !es[i].isDir;
      }
      if HasEntry(init, k, false) {
        var i :| 0 <= i < |init| && init[i].name == k && !init[i].isDir;
        assert es[i] == init[i];
      }
      if k in FileSizes(es) {
        if es[last].name == k && !es[last].isDir {
          assert IsLastFile(es, last, k);
        } else {
          var i :| IsLastFile(init, i, k) && FileSizes(init)[k] == init[i].size;
          assert es[i] == init[i];
          forall j | i < j < |es| ensures es[j].name != k || es[j].isDir {
            if j < last { assert es[j] == init[j]; }
          }
          assert IsLastFile(es, i, k);
        }
      }
    }
  }

  lemma FormatEntryWords(e: Entry)
    requires IsListableName(e.name)
    ensures Listing.Classify(FormatEntry(e)) ==
      if e.isDir then Listing.DirLine(e.name) else Listing.FileLine(e.name, NatToString(e.size))
  {
    var ws := EntryColumns(e);
    var line := FormatEntry(e);
    assert Words(line) == ws by {
      EntryColumnsAreWords(e);
      WordsOfJoin(ws);
    }
    assert line != "" && line[|line| - 1] == e.name[|e.name| - 1] by {
      JoinEndsWithLast(ws, ' ');
    }
    assert Listing.Classify(line) == Listing.ClassifyWords(ws);
  }

  lemma EntryColumnsAreWords(e: Entry)
    requires IsListableName(e.name)
    ensures forall i :: 0 <= i < |EntryColumns(e)| ==> IsWord(EntryColumns(e)[i])
  {
    var t := NatToString(e.size);
    forall j | 0 <= j < |t| ensures !IsSpace(t[j]) {
      assert IsDigit(t[j]);
    }
  }

  /**
   * The parser reads the server's own listing back: a non-recursive `_get_dir_details` of a
   * directory whose entries have listable names yields exactly its directory names (to 0)
   * and its file names with their sizes.
   */
  lemma {:induction false} ParseOfListing(es: seq<Entry>, path: string)
    requires forall i :: 0 <= i < |es| ==> IsListableName(es[i].name)
    ensures Listing.DirDetails(FormatEntries(es), path, Listing.Mode(false, true, true)) ==
      Ok(Listing.Scan(PosixPath.NormPath(path), DirNames(es), FileSizes(es)))
    decreases |es|
  {
    if es != [] {
      var init, e := es[..|es| - 1], es[|es| - 1];
      ParseOfListing(init, path);
      ParseOfListingStep(init, e, path);
      LastSplit(es);
    }
  }

  lemma LastSplit(es: seq<Entry>)
    requires es != []
    ensures es[..|es| - 1] + [es[|es| - 1]] == es
  {
  }

  lemma FormatEntriesSnoc(init: seq<Entry>, e: Entry)
    ensures FormatEntries(init + [e]) == FormatEntries(init) + [FormatEntry(e)]
  {
  }

  /** One more entry in the listing is one more step of the parse. */
  lemma ParseOfListingStep(init: seq<Entry>, e: Entry, path: string)
    requires IsListableName(e.name)
    requires Listing.DirDetails(FormatEntries(init), path, Listing.Mode(false, true, true)) ==
      Ok(Listing.Scan(PosixPath.NormPath(path), DirNames(init), FileSizes(init)))
    ensures Listing.DirDetails(FormatEntries(init + [e]), path, Listing.Mode(false, true, true)) ==
      Ok(Listing.Scan(PosixPath.NormPath(path), DirNames(init + [e]), FileSizes(init + [e])))
  {
    var mode := Listing.Mode(false, true, true);
    FormatEntriesSnoc(init, e);
    Listing.ScanSnoc(Listing.Start(path), FormatEntries(init), FormatEntry(e), mode);
    StepOfEntry(init, e, PosixPath.NormPath(path));
  }

  /** The parser's step over an entry's line adds the entry to the directory or file map. */
  lemma StepOfEntry(init: seq<Entry>, e: Entry, cursor: string)
    requires IsListableName(e.name)
    ensures Listing.Step(Listing.Scan(cursor, DirNames(init), FileSizes(init)), FormatEntry(e),
                         Listing.Mode(false, true, true)) ==
      Ok(Listing.Scan(cursor, DirNames(init + [e]), FileSizes(init + [e])))
  {
    var es := init + [e];
    assert es[..|es| - 1] == init && es[|es| - 1] == e;
    FormatEntryWords(e);
    ParseIntOfNatToString(e.size);
  }

  /** The `NLST p` reply of a live session at `cwd`. */
  function NlstAt(tree: map<Segments, seq<Entry>>, faults: map<Command, FtpError>, cwd: Segments, p: string): Result<seq<string>, FtpError> {
    if NLST(p) in faults then Err(faults[NLST(p)])
    else if Resolve(cwd, p) !in tree then Err(ErrorPerm)
    else Ok(NlstNames(p, tree[Resolve(cwd, p)]))
  }

  /** The `LIST p` reply of a live session at `cwd`. */
  function ListAt(tree: map<Segments, seq<Entry>>, faults: map<Command, FtpError>, cwd: Segments, p: string): Result<seq<string>, FtpError> {
    if LIST(p) in faults then Err(faults[LIST(p)])
    else if Resolve(cwd, p) !in tree then Err(ErrorPerm)
    else Ok(FormatEntries(tree[Resolve(cwd, p)]))
  }

  // ----- The remote end -----

  class Server {
    /** Each directory of the tree, to its entries in listing order. */
    var tree: map<Segments, seq<Entry>>
    /** Commands this server answers with an error, whatever the tree holds. */
    var faults: map<Command, FtpError>
    /** How many commands a new session answers before its control channel closes. */
    const sessionLifetime: nat

    ghost predicate Valid()
      reads this
    {
      [] in tree && forall d :: d in tree ==> IsProperPath(d)
    }

    constructor (tree: map<Segments, seq<Entry>>, faults: map<Command, FtpError>, sessionLifetime: nat)
      requires [] in tree && forall d :: d in tree ==> IsProperPath(d)
      ensures Valid() && this.tree == tree && this.faults == faults && this.sessionLifetime == sessionLifetime
    {
      this.tree := tree;
      this.faults := faults;
      this.sessionLifetime := sessionLifetime;
    }
  }

  /**
   * One control connection (`ftplib.FTP`) to a server. Every command counts; once `sent`
   * reaches `lifetime` the channel has closed and every further command fails, so a session
   * can die between any two commands.
   */
  class Connection {
    const server: Server
    /** The commands sent on this session so far. */
    var sent: nat
    /** The number of commands after which the control channel is closed. */
    var lifetime: nat
    /** The server-side working directory of this session. */
    var cwd: Segments

    ghost predicate Valid()
      reads this, server
    {
      server.Valid() && IsProperPath(cwd) && cwd in server.tree
    }

    constructor (server: Server)
      requires server.Valid()
      ensures Valid() && this.server == server && cwd == []
      ensures sent == 0 && lifetime == server.sessionLifetime
    {
      this.server := server;
      sent := 0;
      lifetime := server.sessionLifetime;
      cwd := [];
    }

    /** The control channel still answers the next command. */
    predicate Open()
      reads this
    {
      sent < lifetime
    }

    /** The error the server gives `cmd` sent as command number `n`, regardless of its arguments' meaning. */
    function RefusalAt(n: nat, cmd: Command): Option<FtpError>
      reads this, server
    {
      if lifetime <= n then Some(ErrorOther)
      else if cmd in server.faults then Some(server.faults[cmd])
      else None
    }

    /** The error the server gives `cmd` sent now, if any. */
    function Refusal(cmd: Command): Option<FtpError>
      reads this, server
    {
      RefusalAt(sent, cmd)
    }

    /** `ftp.connect(host, port)` followed by `ftp.login(user, password)`. */
    method ConnectAndLogin() returns (r: Outcome<FtpError>)
      ensures r == (if CONNECT in server.faults then Fail(server.faults[CONNECT])
                    else if LOGIN in server.faults then Fail(server.faults[LOGIN])
                    else Pass)
    {
      if CONNECT in server.faults {
        return Fail(server.faults[CONNECT]);
      }
      if LOGIN in server.faults {
        return Fail(server.faults[LOGIN]);
      }
      return Pass;
    }

    method Pwd() returns (r: Result<string, FtpError>)
      modifies this
      ensures sent == old(sent) + 1 && lifetime == old(lifetime) && cwd == old(cwd)
      ensures r == match old(Refusal(PWD)) case Some(e) => Err(e) case None => Ok(PathString(cwd))
    {
      r := match Refusal(PWD) case Some(e) => Err(e) case None => Ok(PathString(cwd));
      sent := sent + 1;
    }

    /** `CWD p`: move to the directory `p` names, if the tree has it. */
    method Cwd(p: string) returns (r: Outcome<FtpError>)
      requires Valid()
      modifies this
      ensures Valid() && sent == old(sent) + 1 && lifetime == old(lifetime)
      ensures r == (if old(Refusal(CWD(p))).Some? then Fail(old(Refusal(CWD(p))).value)
                    else if Resolve(old(cwd), p) !in server.tree then Fail(ErrorPerm)
                    else Pass)
      ensures cwd == if r.Pass? then Resolve(old(cwd), p) else old(cwd)
    {
      var target := Resolve(cwd, p);
      ResolveProper(cwd, p);
      var refusal := Refusal(CWD(p));
      sent := sent + 1;
      if refusal.Some? {
        return Fail(refusal.value);
      }
      if target !in server.tree {
        return Fail(ErrorPerm);
      }
      cwd := target;
      return Pass;
    }

    /** `MKD p`: add an empty directory whose parent exists and has no entry of that name. */
    method Mkd(p: string) returns (r: Outcome<FtpError>)
      requires Valid()
      modifies this, server
      ensures Valid() && server.faults == old(server.faults)
      ensures sent == old(sent) + 1 && lifetime == old(lifetime) && cwd == old(cwd)
      ensures var t := Resolve(cwd, p);
        if old(Refusal(MKD(p))).Some? then r == Fail(old(Refusal(MKD(p))).value) && server.tree == old(server.tree)
        else if |t| == 0 || t in old(server.tree) || t[..|t| - 1] !in old(server.tree)
             || HasName(old(server.tree)[t[..|t| - 1]], t[|t| - 1]) then
          r == Fail(ErrorPerm) && server.tree == old(server.tree)
        else
          r == Pass && server.tree == old(server.tree)[t := []][t[..|t| - 1] :=
            old(server.tree)[t[..|t| - 1]] + [Entry(t[|t| - 1], true, 0)]]
    {
      var t := Resolve(cwd, p);
      ResolveProper(cwd, p);
      var refusal := Refusal(MKD(p));
      sent := sent + 1;
      if refusal.Some? {
        return Fail(refusal.value);
      }
      if |t| == 0 || t in server.tree || t[..|t| - 1] !in server.tree || HasName(server.tree[t[..|t| - 1]], t[|t| - 1]) {
        return Fail(ErrorPerm);
      }
      var parent := t[..|t| - 1];
      server.tree := server.tree[t := []][parent := server.tree[parent] + [Entry(t[|t| - 1], true, 0)]];
      return Pass;
    }

    /** What `NLST p` answers as command number `n` of this session. */
    function NlstReplyAt(n: nat, p: string): Result<seq<string>, FtpError>
      reads this, server
    {
      if lifetime <= n then Err(ErrorOther) else NlstAt(server.tree, server.faults, cwd, p)
    }

    method Nlst(p: string) returns (r: Result<seq<string>, FtpError>)
      modifies this
      ensures sent == old(sent) + 1 && lifetime == old(lifetime) && cwd == old(cwd)
      ensures r == NlstReplyAt(old(sent), p)
    {
      var t := Resolve(cwd, p);
      var refusal := Refusal(NLST(p));
      sent := sent + 1;
      if refusal.Some? {
        return Err(refusal.value);
      }
      if t !in server.tree {
        return Err(ErrorPerm);
      }
      return Ok(NlstNames(p, server.tree[t]));
    }

    /** What `LIST p` answers as command number `n` of this session, as reply lines. */
    function ListReplyAt(n: nat, p: string): Result<seq<string>, FtpError>
      reads this, server
    {
      if lifetime <= n then Err(ErrorOther) else ListAt(server.tree, server.faults, cwd, p)
    }

    /** `retrlines('LIST  p', lines.append)`. */
    method RetrLines(p: string) returns (r: Result<seq<string>, FtpError>)
      modifies this
      ensures sent == old(sent) + 1 && lifetime == old(lifetime) && cwd == old(cwd)
      ensures r == ListReplyAt(old(sent), p)
    {
      var t := Resolve(cwd, p);
      var refusal := Refusal(LIST(p));
      sent := sent + 1;
      if refusal.Some? {
        return Err(refusal.value);
      }
      if t !in server.tree {
        return Err(ErrorPerm);
      }
      return Ok(FormatEntries(server.tree[t]));
    }

    /** `DELE p`: remove the file `p` names from its directory. */
    method Delete(p: string) returns (r: Outcome<FtpError>)
      requires Valid()
      modifies this, server
      ensures Valid() && server.faults == old(server.faults)
      ensures sent == old(sent) + 1 && lifetime == old(lifetime) && cwd == old(cwd)
      ensures var t := Resolve(cwd, p);
        if old(Refusal(DELE(p))).Some? then r == Fail(old(Refusal(DELE(p))).value) && server.tree == old(server.tree)
        else if |t| == 0 || t[..|t| - 1] !in old(server.tree) || !HasEntry(old(server.tree)[t[..|t| - 1]], t[|t| - 1], false) then
          r == Fail(ErrorPerm) && server.tree == old(server.tree)
        else
          r == Pass && server.tree == old(server.tree)[t[..|t| - 1] := RemoveFile(old(server.tree)[t[..|t| - 1]], t[|t| - 1])]
    {
      var t := Resolve(cwd, p);
      var refusal := Refusal(DELE(p));
      sent := sent + 1;
      if refusal.Some? {
        return Fail(refusal.value);
      }
      if |t| == 0 || t[..|t| - 1] !in server.tree || !HasEntry(server.tree[t[..|t| - 1]], t[|t| - 1], false) {
        return Fail(ErrorPerm);
      }
      var parent := t[..|t| - 1];
      server.tree := server.tree[parent := RemoveFile(server.tree[parent], t[|t| - 1])];
      return Pass;
    }

    /** `retrbinary('RETR p', ...)`: succeeds when `p` names a file; the bytes are not modelled. */
    method RetrBinary(p: string) returns (r: Outcome<FtpError>)
      modifies this
      ensures sent == old(sent) + 1 && lifetime == old(lifetime) && cwd == old(cwd)
      ensures var t := Resolve(cwd, p);
        r == if old(Refusal(RETR(p))).Some? then Fail(old(Refusal(RETR(p))).value)
             else if |t| == 0 || t[..|t| - 1] !in server.tree || !HasEntry(server.tree[t[..|t| - 1]], t[|t| - 1], false) then Fail(ErrorPerm)
             else Pass
    {
      var t := Resolve(cwd, p);
      var refusal := Refusal(RETR(p));
      sent := sent + 1;
      if refusal.Some? {
        return Fail(refusal.value);
      }
      if |t| == 0 || t[..|t| - 1] !in server.tree || !HasEntry(server.tree[t[..|t| - 1]], t[|t| - 1], false) {
        return Fail(ErrorPerm);
      }
      return Pass;
    }

    /** `QUIT`: on success the channel is closed. */
    method Quit() returns (r: Outcome<FtpError>)
      modifies this
      ensures cwd == old(cwd) && sent == old(sent) + 1
      ensures r == (if old(Refusal(QUIT)).Some? then Fail(old(Refusal(QUIT)).value) else Pass)
      ensures lifetime == if r.Pass? then sent else old(lifetime)
    {
      var refusal := Refusal(QUIT);
      sent := sent + 1;
      if refusal.Some? {
        return Fail(refusal.value);
      }
      lifetime := sent;
      return Pass;
    }
  }
}
