/**
 * The two readers of a listing line agree on what the server writes: the storage client's
 * whitespace parser and the tree cache's `ls -l` grammar both accept a line of the
 * server's `LIST` reply, and both read the same kind and name from it.
 */
module Agreement {
  import opened Wrappers
  import opened Text
  import opened Remote
  import opened LsLine
  import Listing

  /** The grammar's fields of the line the server writes for an entry. */
  function EntryFields(e: Entry): LsFields {
    LsFields(if e.isDir then 'd' else '-', if e.isDir then "rwxr-xr-x" else "rw-r--r--",
             "1", "ftp", "ftp", NatToString(e.size), "Jan", "01", "00:00", e.name)
  }

  lemma EntryFieldsWellFormed(e: Entry)
    requires IsListableName(e.name)
    ensures WellFormed(EntryFields(e))
  {
    var f := EntryFields(e);
    assert IsPermissions(f.permissions);
    assert AllIn(f.owner, WordChar) && AllIn(f.month, WordChar) && AllIn(f.day, Digit) && AllIn(f.links, Digit);
    assert AllIn(f.size, Digit);
    assert IsTimeOrYear(f.timeOrYear);
  }

  lemma FormatEntryIsFormatLine(e: Entry)
    ensures FormatEntry(e) == FormatLine(EntryFields(e))
  {
    var f := EntryFields(e);
    assert (if e.isDir then "drwxr-xr-x" else "-rw-r--r--") == [f.directory] + f.permissions;
  }

  /**
   * A line of the server's listing, for an entry with a listable name, is matched by the
   * `ls -l` grammar with the entry's kind and name, and the whitespace parser reads the
   * same kind and name from it.
   */
  lemma ServerLineReadAlike(e: Entry)
    requires IsListableName(e.name)
    ensures SplitLine(FormatEntry(e)) == Some(EntryFields(e))
    ensures (SplitLine(FormatEntry(e)).value.directory == 'd') == e.isDir
    ensures Listing.Classify(FormatEntry(e)) ==
      if e.isDir then Listing.DirLine(SplitLine(FormatEntry(e)).value.filename)
      else Listing.FileLine(SplitLine(FormatEntry(e)).value.filename, SplitLine(FormatEntry(e)).value.size)
  {
    EntryFieldsWellFormed(e);
    FormatEntryIsFormatLine(e);
    SplitFormatLine(EntryFields(e));
    FormatEntryWords(e);
  }
}
