# django-akamai-storage, modelled in Dafny

This project models the core of `django-akamai-storage`. The package is a Django storage
backend that keeps files on an Akamai NetStorage account over FTP. It also mirrors that
account's directory tree into database rows. Two parts are modelled:

- **The storage client** (`AkamaiNetStorage`). It holds at most one FTP session and
  reopens it when a `PWD` probe fails. It creates directory chains, and it answers
  `exists`, `delete`, `size`, `url`, `get_available_name` and `listdir`. It decides
  whether a retrieved file is kept in memory or in a temporary file. Its listing parser
  (`_get_dir_details`) turns the lines of a `LIST` reply into a map of directories and a
  map of file sizes.
- **The tree cache** (`FileSystemManager.retreive`). It reads a recursive listing line by
  line and matches each entry line against the fixed `ls -l` grammar `ls_line`. It then
  looks up or creates a `Directory` or `File` row under the directory row of the current
  cursor. The `File` row's `filename` property splits and joins name and extension.

Modules, one per file:

| file | module | what it holds |
|---|---|---|
| `wrappers.dfy` | `Wrappers` | `Option`, `Result`, `Outcome` |
| `text.dfy` | `Text` | `str.split()`, `str.split(c)` and `join`, `int()`, ASCII `lower()` |
| `posixpath.dfy` | `PosixPath` | Python 2 `normpath`, `splitext`, `dirname`, `basename` |
| `listing.dfy` | `Listing` | the `_get_dir_details` loop, the left fold that specifies it, and what the maps hold |
| `remote.dfy` | `Remote` | the FTP server and one control connection, standing in for `ftplib.FTP` |
| `storage.dfy` | `Storage` | the `AkamaiNetStorage` object and its operations |
| `lsline.dfy` | `LsLine` | a hand-written recogniser for the `ls_line` grammar, and its formatter |
| `treecache.dfy` | `TreeCache` | `FileSystemManager` over a map of rows, and the `File` naming fields |
| `agreement.dfy` | `Agreement` | both line readers read the same kind and name from a server line |

The FTP server is a value the client talks to. It holds a tree: each directory, given as
its path components, maps to its entries in listing order. It also holds a table of
commands it refuses, each with a temporary (4xx), permanent (5xx) or other error. A
connection has a working directory and counts the commands it has sent. Each session
lives for the server's `sessionLifetime` commands; from then on it is dead and fails every
command, `PWD` included, with an "other" error. Any command of an operation may therefore
be the first to meet a dead session, and each operation's contract covers that case. `LIST` answers
with one `ls -l` line per entry. `NLST p` answers with `p` followed by each entry's name.

Python exceptions become error values: `Storage.StorageError` for the storage client
(the six `AkamaiNetStorageException` messages, the two `ValueError`s and the
`AttributeError` of a missing session) and `TreeCache.CacheError` for the tree cache.
ftplib errors that a method lets through unchanged are passed on as `Ftp(error)`.

## Model

| member | source | states |
|---|---|---|
| Listing.ParseDirDetails | akamai_storage/storage.py:212-241 | The loop returns exactly the two maps of the fold `DirDetails`, or the `int()` error of the first bad size. In that fold the cursor starts at `normpath(path)`. A blank line is skipped. `x:` sets the cursor to `normpath(x)`. Lines with under six tokens, or with `->` second to last, are dropped. `d` and `-` entries are added only when shown, keyed by name or by `normpath(cursor/name)` |
| Listing.ErrorPersists | akamai_storage/storage.py:237-239 | Once a size fails to parse, the rest of the listing changes nothing: the parse raises that error |
| Listing.ScanCursor | akamai_storage/storage.py:215-222 | After a successful parse the cursor is the normalised path of the last header line, or the starting cursor when there is none |
| Listing.ScanDirs | akamai_storage/storage.py:230-234 | A key is in `dirs` iff folders are shown and some `d` line lists it under the cursor of that point; its value is 0 |
| Listing.ScanFiles | akamai_storage/storage.py:235-239 | A key is in `files` iff files are shown and some `-` line lists it; its value is the integer of the size column on the last such line |
| Listing.ScanContents | akamai_storage/storage.py:215-239 | Cursor, `dirs` and `files` together: every key in either map comes from a classified entry line, and every shown entry line leaves its key |
| Listing.FoldersHiddenMeansNoDirs | akamai_storage/storage.py:230-234 | With `show_folders` off, `dirs` is empty |
| Listing.FilesHiddenMeansNoFiles | akamai_storage/storage.py:235-239 | With `show_files` off, `files` is empty |
| Listing.ScanFails | akamai_storage/storage.py:235-239 | The parse raises iff files are shown and some `-` line's size column is not an integer |
| Listing.InertLineRemovable | akamai_storage/storage.py:218-228 | A blank line, a short line, a symlink line, a line of another kind or an entry of a hidden kind can be removed from anywhere in a listing without changing the result |
| Listing.ScanAppend | akamai_storage/storage.py:217-239 | Parsing `a + b` is parsing `a`, then `b` from the state `a` left |
| Listing.ScanMerges | akamai_storage/storage.py:230-239 | Keys already in the maps stay unless a later line overwrites them: a parse merges its own entries over what was there |
| Listing.HeaderFirstIgnoresCursor | akamai_storage/storage.py:220-222 | A block that opens with a header line parses the same from any starting cursor |
| Listing.ConcatenatedBlocks | akamai_storage/storage.py:215-239 | Two recursive blocks, the second opening with its own header, parse to the union of their maps, with the second block winning on a shared key |
| Remote.FormatEntryWords | akamai_storage/storage.py:224-239 | A server `LIST` line for an entry with a listable name is read as a directory line or a file line with that name and its size column |
| Remote.ParseOfListing | akamai_storage/storage.py:224-237 | Parsing a server directory listing without recursion yields exactly its directory names (each to 0) and its file names, each with the size of its last entry |
| Remote.ResolvePathString | akamai_storage/storage.py:153-164 | `CWD` to what `PWD` answered comes back to the same directory, from any working directory |
| Remote.ResolveSegment | akamai_storage/storage.py:155-161 | `CWD` with a path part that has no slash moves by that one part |
| Storage.NetStorage.constructor | akamai_storage/storage.py:21-25 | A new storage keeps its configuration and has no session |
| Storage.NetStorage.StartConnection | akamai_storage/storage.py:120-139 | On success a session is held. A live session answers the `PWD` probe and is kept, at the same directory, with one more command sent. A dead or missing one is replaced by a fresh session at the configured path with the server's full lifetime, and that succeeds iff connect, login and the `CWD` get through. Otherwise the error names the configuration |
| Storage.NetStorage.Disconnect | akamai_storage/storage.py:148-150 | After a successful `QUIT` the session is closed and forgotten. A refused `QUIT` passes its ftplib error on and keeps the session. Without a session the call fails |
| Storage.NetStorage.MkRemDirs | akamai_storage/storage.py:152-165 | A failing `PWD` changes nothing. On success the working directory is where it started, and every prefix of the `/`-separated path exists. Whatever happens, no directory is removed, every directory that appears lies on the walk of the path from the start, and an existing directory keeps its entries and gains only directory entries after them. A failure is the directory-chain error or an ftplib error |
| Storage.ExistsAnswer | akamai_storage/storage.py:65-76 | A temporary or permanent error means false. Any other error raises. Otherwise the answer is whether the name is among the `NLST` names |
| Storage.NetStorage.Exists | akamai_storage/storage.py:63-76 | Opens the session and then gives the `ExistsAnswer` of the `NLST dirname(name)/` reply that session gives as its last command, an "other" error when that command finds it dead. A kept session stays at its directory; a new one is at the configured path |
| Storage.ExistsIffListed | akamai_storage/storage.py:66 | For a name with a directory part, `exists` is true iff its directory has an entry of its base name |
| Storage.BareNameNeverListed | akamai_storage/storage.py:66 | A bare name (`x` or `/x`) is never among the `NLST /` or `NLST //` names, so `exists` is never true for it and `delete` never removes it |
| Storage.NetStorage.Delete | akamai_storage/storage.py:54-61 | When `exists` says no, the tree is unchanged and the `NLST` at the directory it asked from did not list the name. When it says yes, that `NLST` listed it; on success the file is removed from its directory, resolved from the session's directory (the one `exists` asked from, or the configured path when the session was reopened), and nothing else changes. Every failure is the connection, existence or removing error, and leaves the tree unchanged |
| Storage.NetStorage.GetDirDetails | akamai_storage/storage.py:200-243 | One command is sent. A failed `LIST`, a dead session included, gives the listing error. A bad size column gives the `int()` error. Otherwise the result is the maps of the listing parser for that reply |
| Storage.NetStorage.ListDir | akamai_storage/storage.py:78-84 | The key sets of the two maps of the session's last command, `LIST path`, or the error that produced them |
| Storage.SizeAnswer | akamai_storage/storage.py:88-95 | A failed listing gives 0. Otherwise the result is the listed size of `basename(name)`, or 0 when it is absent. Only a bad size column raises |
| Storage.NetStorage.Size | akamai_storage/storage.py:86-95 | Opens the session and then gives the `SizeAnswer` of the `LIST dirname(name)` reply it gives as its last command. A kept session stays at its directory; a new one is at the configured path |
| Storage.SizeOfListedFile | akamai_storage/storage.py:86-95 | `size` on a server listing is the size of the last file entry with the name's base name, and 0 when there is none |
| Storage.SizeAtListedFile | akamai_storage/storage.py:86-95 | Seen from a session at any directory, `size` reports the listed size of the file the name leads to, and 0 when that directory has no such file |
| Storage.NetStorage.Url | akamai_storage/storage.py:97-100 | Raises iff no media URL is configured. Otherwise the result is the base URL joined with the name, and it has no backslash |
| Storage.UrlJoinUnderDirectory | akamai_storage/storage.py:100 | A relative name under a base URL path that ends in `/` is appended to the base |
| Storage.GetAvailableName | akamai_storage/storage.py:51-52 | Every name is available as it is |
| Storage.NetStorage.RetrieveFileAsWritten | akamai_storage/storage.py:180-198 | Ordered as the source, `size` is asked after moving into `dirname(name)`, or from the configured path when `size` had to reopen the session. On success the session is back where it was, and the file is kept in memory iff `size` from that directory is at most the limit |
| Storage.SizeAfterCwdCounterexample | akamai_storage/storage.py:183-185 | From the root, with a 10 MB file `a/b.bin`, `size` asked from the root is 10000000. Asked from inside `a`, where the source has moved, it is 0 |
| Storage.NetStorage.RetrieveFile | akamai_storage/storage.py:180-198 | On success the session is where it was (or at the configured path when it was reopened), and the file is kept in memory iff its listed size, seen from that directory, is at most the limit |
| LsLine.SplitLine | akamai_storage/models.py:18 | An accepted line is at least ten characters long. Its kind is its first character and its permissions are the next nine. Every field satisfies the grammar: digits for links, size and day, at most 30 word characters for owner and group, `hh:mm` or a year, and a non-blank file name without a newline |
| LsLine.SplitLineMatches | akamai_storage/models.py:18 | A line is matched with fields `f` iff `f` is well formed and the line, up to one trailing newline, is the kind character, the nine permission characters, then each of the eight columns after its own run of one or more spaces |
| LsLine.SplitFormatLine | akamai_storage/models.py:18-50 | Every line written from well-formed fields is matched, and the match gives the same fields back |
| Agreement.ServerLineReadAlike | akamai_storage/models.py:18-50 | A server `LIST` line is matched by `ls_line` with the entry's own fields. The storage client's whitespace parser reads the same kind, name and size column from it |
| TreeCache.ParentOf | akamai_storage/models.py:90-94 | No parent iff the path is empty. Otherwise the directory row of that path, and an error iff that row is missing |
| TreeCache.FileSystemManager.GetDirectory | akamai_storage/models.py:90-94 | A found parent is a directory row of the store. The lookup fails iff the path is non-empty and has no directory row |
| TreeCache.Cache | akamai_storage/models.py:52-88 | Lookup-or-create. An existing row leaves the store unchanged. Otherwise exactly one row is added and no other row changes. The new row has no parent iff the cursor is empty, and otherwise its parent is the cursor's directory row. A missing parent is an error that adds nothing |
| TreeCache.CacheNames | akamai_storage/models.py:52-88 | A new directory row is named by the file name with no extension; a new file row is named by the `splitext` root, with the extension without its dot, lowercased |
| TreeCache.FileSystemManager.CacheDirectory | akamai_storage/models.py:52-68 | The store and the result are those of `Cache` for a directory row named after the file name |
| TreeCache.FileSystemManager.CacheFile | akamai_storage/models.py:70-88 | The store and the result are those of `Cache` for a file row named by `splitext`, with the extension's dot dropped and the extension lowercased |
| TreeCache.FileSystemManager.Retreive | akamai_storage/models.py:20-47 | An unknown storage key fails and changes nothing. Otherwise the store is that of the fold `SyncLines`. In it the raw path is the first cursor, blank lines are skipped, `x:` sets the cursor to `x` without normalising it, and an unmatched line or a missing parent stops the loop. Rows written before the stop are kept |
| TreeCache.FailurePersists | akamai_storage/models.py:29-47 | After the first exception the later lines change nothing |
| TreeCache.SuccessfulRun | akamai_storage/models.py:29-47 | A run without an exception keeps every row it started with, has a row for every entry line and matched every line |
| TreeCache.CoveredRun | akamai_storage/models.py:29-47 | A run over matched lines whose rows all exist changes nothing and does not fail |
| TreeCache.RetreiveIdempotent | akamai_storage/models.py:20-47 | Running `retreive` again over the same listing, from the table the first run left, adds no row, changes none and ends the same way. A first run that raised leaves its rows, and the second run raises the same exception at the same line |
| TreeCache.CacheKeepsParents | akamai_storage/models.py:59-67 | Lookup-or-create keeps every row's parent a directory row of the same storage |
| TreeCache.MissingCursorFailsAtFirstEntry | akamai_storage/models.py:52-94 | A run from a cursor without a directory row of its own, whose first line that is not blank is a matched entry line without a row of its own, stops at that line with the missing-parent error and writes nothing |
| TreeCache.SyncKeepsParents | akamai_storage/models.py:29-47 | Every run, even one that stops early, keeps every row's parent a directory row of the same storage |
| TreeCache.FilenameParts | akamai_storage/models.py:151-154 | The name is the `splitext` root. The extension is empty when `splitext` gives none, and otherwise it is the `splitext` extension without its dot. It has no dot and no slash |
| TreeCache.FilenameRoundTrip | akamai_storage/models.py:148-154 | Setting a file name with an extension and reading it back gives it unchanged. A name without an extension comes back with a trailing dot |
| TreeCache.File.SetFilename | akamai_storage/models.py:151-154 | The fields become the `FilenameParts` of the name, and `get_filename` then gives the name back when it has an extension |
| PosixPath.NormPath | akamai_storage/storage.py:215 | `normpath` is never empty, and it starts with `/` iff its argument does |
| PosixPath.NormPathIdempotent | akamai_storage/storage.py:221 | Normalising a normalised path changes nothing |
| PosixPath.SplitExt | akamai_storage/models.py:76 | Root and extension concatenate to the argument. The extension is empty or a dot followed by characters other than dots and slashes |
| PosixPath.SplitExtCut | akamai_storage/models.py:76 | There is an extension iff the base name has a dot after a character that is not a dot, and then the root ends right before the last dot |
| PosixPath.BaseName | akamai_storage/storage.py:90 | `basename` is the part after the last slash: a suffix of the argument without a slash |
| Text.Words | akamai_storage/storage.py:224 | Every token of `split()` is non-empty and has no whitespace |
| Text.SplitJoin | akamai_storage/storage.py:154 | Splitting a join of parts that do not contain the separator gives the parts back |
| Text.ParseInt | akamai_storage/storage.py:237 | `int()` fails on an empty token and is non-negative on a token that starts with a digit |
| Text.ParseIntOfNatToString | akamai_storage/storage.py:237 | `int()` reads back the decimal digits of any natural number |

## Left out

- The ftplib transport (sockets, reply codes, timeouts) is left out. `connect`, `login`, `pwd`, `cwd`, `mkd`, `nlst`, `retrlines`, `retrbinary`, `delete` and `quit` are operations of the server model in `remote.dfy`. Which commands fail is part of the server state, not of chance.
- File contents are left out: `_put_file`, `_save`, `_open`, `storbinary`, the bytes `retrbinary` delivers, the temporary file and the `BytesIO` stream, and Python 2 byte coercion. They are I/O, not logic.
- `_get_dir_extra_details` is the `LIST -R` call; its reply is the `lines` parameter of `Retreive`. The server model produces only non-recursive listings; the parser is still proved for any lines, recursive ones included.
- Storage.NetStorage.RetrieveFile: says which of memory and temporary file is chosen, not what the file then holds, because the bytes are not modelled.
- Storage.NetStorage.Url: `urlparse.urljoin` is modelled for bases and names without query, fragment, parameters, dot segments or a scheme of their own. That is what a media URL and a stored name look like. A protocol-relative base (`//host/p/`) is not split into host and path, so a name that starts with `/` is not joined onto `//host` alone as `urljoin` does. A name that starts with `//` carries its own host, which `urljoin` keeps with the base's scheme (`http://h/m/` and `//cdn/x` give `http://cdn/x`); here it is joined under the base's host instead (`http://h//cdn/x`).
- Storage.NetStorage.Delete: its ghost results record what `exists` answered and the directory its `NLST` was asked from, so the contract can tell the "did not exist" and "removed" cases apart and say which listing decided.
- `NLST p` replies are modelled as `p` followed by each entry name, the convention under which `exists` can succeed. A server that answers bare names would make `exists` false for every name with a directory part.
- LsLine.SplitLine: each ` {1,}` takes the whole run of spaces, without regex backtracking. Two lines the regex matches are therefore rejected: one whose empty owner or group is written as an extra space, and one whose file name is only spaces.
- Python 2 `unicode` case folding and Unicode `\w`/`\d` are left out: `lower()` and the character classes are ASCII, as `ls_line` is compiled without the UNICODE flag.
- The Django ORM is a map from (kind, storage, path) to (name, extension, parent). MPTT ordering, the polymorphic tables, timestamps, the `items` list that `retreive` fills and drops, and the `print` statements are not modelled.
- `FileStorage` metadata, `get_storage_class` and settings lookup, `AkamaiContentFile`/`AkamaiFile`, the form and admin classes, the model fields and `setup.py` are configuration and framework glue, not part of this model.
- `_end_connection` does nothing and is not modelled.
- A session dies only by reaching the server's `sessionLifetime`, the same number of commands for every session; connect and login are not counted. Which command first meets a dead session is thus fixed by the server state, as refusals are.
- Storage.ExistsIffListed: bare names (`x`, `/x`) are not covered. For them `exists` asks `NLST /`, the root, whatever the working directory, and under the `NLST` convention above it is never true (Storage.BareNameNeverListed); `delete` of a bare name therefore never deletes.
- `retreive` makes no parentless rows for a query root without a row of its own: the model follows `_get_directory` and stops with the missing-parent error at the first entry line that has no row of its own (TreeCache.MissingCursorFailsAtFirstEntry).

## Findings

| source | as written | input that shows it | evidently intended | confidence | as-written member | corrected member |
|---|---|---|---|---|---|---|
| akamai_storage/storage.py:183-185 | `_retrieve_file` moves into `dirname(name)` and then calls `size(name)`. That lists `dirname(name)` again relative to the new directory, so a relative name with a directory part is looked up one level too deep | From the root, `name = "a/b.bin"` with a 10000000-byte file `a/b.bin`: `size` lists `a/a`, which fails, so it reports 0 and the file always goes to memory | The size of the file itself, asked before the working directory changes | not executed | Storage.NetStorage.RetrieveFileAsWritten, Storage.SizeAfterCwdCounterexample | Storage.NetStorage.RetrieveFile, Storage.SizeAtListedFile |
