/**
 * The `ls -l` line grammar of the tree-cache builder (`FileSystemManager.ls_line`),
 * recognised by hand: a kind character (`-` or `d`), nine permission characters, then
 * links, owner, group, size, month, day and time-or-year, each after a run of spaces, and
 * the rest of the line as the file name.
 */
module LsLine {
  import opened Wrappers
  import opened Text

  /** The named groups of a match. */
  datatype LsFields = LsFields(
    directory: char, permissions: string, links: string, owner: string, group: string,
    size: string, month: string, day: string, timeOrYear: string, filename: string)

  /** The character classes the grammar uses: ` `, `\d` and `\w` (ASCII, no UNICODE flag). */
  datatype CharClass = Space | Digit | WordChar

  predicate InClass(c: char, k: CharClass) {
    match k
    case Space => c == ' '
    case Digit => IsDigit(c)
    case WordChar => IsDigit(c) || 'a' <= c <= 'z' || 'A' <= c <= 'Z' || c == '_'
  }

  predicate AllIn(s: string, k: CharClass) {
    forall i :: 0 <= i < |s| ==> InClass(s[i], k)
  }

  /** A token and what follows it. */
  datatype Cut = Cut(token: string, rest: string)

  /** The longest prefix of `s` in class `k`, and the rest. */
  function Take(s: string, k: CharClass): (c: Cut)
    ensures c.token + c.rest == s
    ensures AllIn(c.token, k)
    ensures c.rest == [] || !InClass(c.rest[0], k)
  {
    if s != [] && InClass(s[0], k) then
      var c := Take(s[1..], k);
      assert [s[0]] + c.token + c.rest == s;
      Cut([s[0]] + c.token, c.rest)
    else Cut([], s)
  }

  /** ` {1,}`: at least one space; the whole run is consumed. */
  function AfterSpaces(s: string): (r: Option<string>)
    ensures r.Some? ==> |r.value| < |s| && r.value == s[|s| - |r.value|..]
    ensures r.Some? ==> r.value == [] || r.value[0] != ' '
  {
    var c := Take(s, Space);
    if c.token == [] then None else Some(c.rest)
  }

  /** `\d{2}:?\d{2}`: `hh:mm` or a year. */
  predicate IsTimeOrYear(t: string) {
    || (|t| == 5 && IsDigit(t[0]) && IsDigit(t[1]) && t[2] == ':' && IsDigit(t[3]) && IsDigit(t[4]))
    || (|t| == 4 && AllDigits(t))
  }

  function TimeOrYear(s: string): (r: Option<Cut>)
    ensures r.Some? ==> IsTimeOrYear(r.value.token) && r.value.token + r.value.rest == s
  {
    if |s| >= 5 && IsDigit(s[0]) && IsDigit(s[1]) && s[2] == ':' && IsDigit(s[3]) && IsDigit(s[4]) then
      Some(Cut(s[..5], s[5..]))
    else if |s| >= 4 && IsDigit(s[0]) && IsDigit(s[1]) && IsDigit(s[2]) && IsDigit(s[3]) then
      Some(Cut(s[..4], s[4..]))
    else None
  }

  /** `[-r][-w][-x]` three times. */
  predicate IsPermissions(p: string) {
    |p| == 9 && forall i :: 0 <= i < 9 ==> p[i] == '-' || p[i] == "rwxrwxrwx"[i]
  }

  /** What `$` lets the match end before: one trailing newline. */
  function Body(line: string): string {
    if EndsWith(line, '\n') then line[..|line| - 1] else line
  }

  /** ` {1,}`, then a run of at least one character of class `k` (`\d+`, `\w+`). */
  function Run(s: string, k: CharClass): (r: Option<Cut>)
    requires k != Space
    ensures r.Some? ==> AllIn(r.value.token, k) && |r.value.token| > 0
    ensures r.Some? ==> r.value.rest == [] || !InClass(r.value.rest[0], k)
  {
    var t :- AfterSpaces(s);
    var c := Take(t, k);
    if c.token == [] then None else Some(c)
  }

  /**
   * ` {1,}`, then `[\w_]{0,30}`. An empty run is followed by no space (the run before took
   * them all), so no further field can follow it.
   */
  function ShortWord(s: string): (r: Option<Cut>)
    ensures r.Some? ==> AllIn(r.value.token, WordChar) && |r.value.token| <= 30
    ensures r.Some? && r.value.token == [] ==> r.value.rest == [] || r.value.rest[0] != ' '
  {
    var t :- AfterSpaces(s);
    var c := Take(t, WordChar);
    if |c.token| > 30 then None else Some(c)
  }

  /** ` {1,}`, then `\d{2}:?\d{2}`. */
  function Time(s: string): (r: Option<Cut>)
    ensures r.Some? ==> IsTimeOrYear(r.value.token)
  {
    var t :- AfterSpaces(s);
    TimeOrYear(t)
  }

  /** ` {1,}`, then `.+` up to the end: the file name. */
  function Filename(s: string): (r: Option<string>)
    ensures r.Some? ==> |r.value| > 0 && r.value[0] != ' ' && '\n' !in r.value
  {
    var t :- AfterSpaces(s);
    if t == [] || '\n' in t then None else Some(t)
  }

  /** The fields a match can yield. */
  predicate WellFormed(f: LsFields) {
    && (f.directory == '-' || f.directory == 'd')
    && IsPermissions(f.permissions)
    && |f.links| > 0 && AllIn(f.links, Digit)
    && 0 < |f.owner| <= 30 && AllIn(f.owner, WordChar)
    && 0 < |f.group| <= 30 && AllIn(f.group, WordChar)
    && |f.size| > 0 && AllIn(f.size, Digit)
    && |f.month| > 0 && AllIn(f.month, WordChar)
    && |f.day| > 0 && AllIn(f.day, Digit)
    && IsTimeOrYear(f.timeOrYear)
    && |f.filename| > 0 && f.filename[0] != ' ' && '\n' !in f.filename
  }

  /**
   * `ls_line.match(line).groupdict()`, or `None` where the pattern does not match. Each
   * ` {1,}` takes its whole run of spaces.
   */
  function SplitLine(line: string): (r: Option<LsFields>)
    ensures r.Some? ==> WellFormed(r.value)
    ensures r.Some? ==> |line| >= 10 && r.value.directory == line[0] && r.value.permissions == line[1..10]
  {
    var b := Body(line);
    if |b| < 10 || !(b[0] == '-' || b[0] == 'd') || !IsPermissions(b[1..10]) then None
    else Columns(b[0], b[1..10], b[10..])
  }

  /** The eight space-separated columns after the kind and permission characters. */
  function Columns(directory: char, permissions: string, s: string): (r: Option<LsFields>)
    requires (directory == '-' || directory == 'd') && IsPermissions(permissions)
    ensures r.Some? ==> WellFormed(r.value)
    ensures r.Some? ==> r.value.directory == directory && r.value.permissions == permissions
  {
    var links :- Run(s, Digit);
    var owner :- ShortWord(links.rest);
    var group :- ShortWord(owner.rest);
    var size :- Run(group.rest, Digit);
    var month :- Run(size.rest, WordChar);
    var day :- Run(month.rest, Digit);
    var time :- Time(day.rest);
    var name :- Filename(time.rest);
    Some(LsFields(directory, permissions, links.token, owner.token, group.token, size.token,
                  month.token, day.token, time.token, name))
  }

  // ----- the grammar as a layout: which lines match, and with which fields -----

  /** A run of one or more spaces: what each ` {1,}` of the pattern matches. */
  predicate IsGap(g: string) {
    |g| > 0 && AllIn(g, Space)
  }

  /** The eight columns after the kind and permission characters, in line order. */
  function ColumnsOf(f: LsFields): seq<string> {
    [f.links, f.owner, f.group, f.size, f.month, f.day, f.timeOrYear, f.filename]
  }

  /** Each column written after its own run of spaces. */
  function Padded(gaps: seq<string>, columns: seq<string>): string
    requires |gaps| == |columns|
    decreases |gaps|
  {
    if gaps == [] then "" else gaps[0] + (columns[0] + Padded(gaps[1..], columns[1..]))
  }

  /**
   * `line` is, up to one trailing newline, the kind character, the permissions, then each
   * column after a run of spaces: the layout the pattern describes, with `f` in its groups.
   */
  ghost predicate Matches(line: string, f: LsFields) {
    exists gaps :: |gaps| == 8 && (forall g :: g in gaps ==> IsGap(g))
      && Body(line) == [f.directory] + f.permissions + Padded(gaps, ColumnsOf(f))
  }

  /** The spaces `AfterSpaces` skipped. */
  lemma GapBefore(s: string) returns (g: string)
    requires AfterSpaces(s).Some?
    ensures IsGap(g) && s == g + AfterSpaces(s).value
  {
    g := Take(s, Space).token;
  }

  /** The spaces a column reader skipped before its token. */
  lemma RunGap(s: string, k: CharClass) returns (g: string)
    requires k != Space && Run(s, k).Some?
    ensures IsGap(g) && s == g + (Run(s, k).value.token + Run(s, k).value.rest)
  {
    g := GapBefore(s);
  }

  lemma ShortWordGap(s: string) returns (g: string)
    requires ShortWord(s).Some?
    ensures IsGap(g) && s == g + (ShortWord(s).value.token + ShortWord(s).value.rest)
  {
    g := GapBefore(s);
  }

  lemma TimeGap(s: string) returns (g: string)
    requires Time(s).Some?
    ensures IsGap(g) && s == g + (Time(s).value.token + Time(s).value.rest)
  {
    g := GapBefore(s);
  }

  lemma FilenameGap(s: string) returns (g: string)
    requires Filename(s).Some?
    ensures IsGap(g) && s == g + Filename(s).value
  {
    g := GapBefore(s);
  }

  lemma PaddedCons(g: string, c: string, gaps: seq<string>, columns: seq<string>)
    requires |gaps| == |columns|
    ensures Padded([g] + gaps, [c] + columns) == g + (c + Padded(gaps, columns))
  {
    assert ([g] + gaps)[1..] == gaps && ([c] + columns)[1..] == columns;
  }

  /** What the column readers accept, laid out with the runs of spaces they skipped. */
  lemma ColumnsLayout(directory: char, permissions: string, s: string, f: LsFields) returns (gaps: seq<string>)
    requires (directory == '-' || directory == 'd') && IsPermissions(permissions)
    requires Columns(directory, permissions, s) == Some(f)
    ensures |gaps| == 8 && forall g :: g in gaps ==> IsGap(g)
    ensures s == Padded(gaps, ColumnsOf(f))
  {
    var links := Run(s, Digit).value;
    var owner := ShortWord(links.rest).value;
    var group := ShortWord(owner.rest).value;
    var size := Run(group.rest, Digit).value;
    var month := Run(size.rest, WordChar).value;
    var day := Run(month.rest, Digit).value;
    var time := Time(day.rest).value;
    assert f == LsFields(directory, permissions, links.token, owner.token, group.token, size.token,
                         month.token, day.token, time.token, Filename(time.rest).value);
    var g1 := RunGap(s, Digit);
    var g2 := ShortWordGap(links.rest);
    var g3 := ShortWordGap(owner.rest);
    var g4 := RunGap(group.rest, Digit);
    var g5 := RunGap(size.rest, WordChar);
    var g6 := RunGap(month.rest, Digit);
    var g7 := TimeGap(day.rest);
    var g8 := FilenameGap(time.rest);
    gaps := EightGaps(g1, g2, g3, g4, g5, g6, g7, g8);
    PaddedEight(s, g1, g2, g3, g4, g5, g6, g7, g8,
                links.token, owner.token, group.token, size.token, month.token, day.token, time.token,
                Filename(time.rest).value,
                links.rest, owner.rest, group.rest, size.rest, month.rest, day.rest, time.rest);
  }

  /** Eight runs of spaces, in order. */
  lemma EightGaps(g1: string, g2: string, g3: string, g4: string, g5: string, g6: string, g7: string, g8: string)
    returns (gaps: seq<string>)
    requires IsGap(g1) && IsGap(g2) && IsGap(g3) && IsGap(g4)
    requires IsGap(g5) && IsGap(g6) && IsGap(g7) && IsGap(g8)
    ensures gaps == [g1, g2, g3, g4, g5, g6, g7, g8]
    ensures |gaps| == 8 && forall g :: g in gaps ==> IsGap(g)
  {
    gaps := [g1, g2, g3, g4, g5, g6, g7, g8];
  }

  /** A text cut column by column, each column after its gap, is the padded layout of those columns. */
  lemma PaddedEight(s: string, g1: string, g2: string, g3: string, g4: string, g5: string, g6: string,
                    g7: string, g8: string, c1: string, c2: string, c3: string, c4: string, c5: string,
                    c6: string, c7: string, c8: string,
                    r1: string, r2: string, r3: string, r4: string, r5: string, r6: string, r7: string)
    requires s == g1 + (c1 + r1) && r1 == g2 + (c2 + r2) && r2 == g3 + (c3 + r3)
    requires r3 == g4 + (c4 + r4) && r4 == g5 + (c5 + r5) && r5 == g6 + (c6 + r6)
    requires r6 == g7 + (c7 + r7) && r7 == g8 + c8
    ensures s == Padded([g1, g2, g3, g4, g5, g6, g7, g8], [c1, c2, c3, c4, c5, c6, c7, c8])
  {
    PaddedOfCuts(s, [g1, g2, g3, g4, g5, g6, g7, g8], [c1, c2, c3, c4, c5, c6, c7, c8],
                 r1, r2, r3, r4, r5, r6, r7);
  }

  lemma PaddedOfCuts(s: string, gaps: seq<string>, cs: seq<string>,
                     r1: string, r2: string, r3: string, r4: string, r5: string, r6: string, r7: string)
    requires |cs| == |gaps| == 8
    requires s == gaps[0] + (cs[0] + r1) && r1 == gaps[1] + (cs[1] + r2)
    requires r2 == gaps[2] + (cs[2] + r3) && r3 == gaps[3] + (cs[3] + r4)
    requires r4 == gaps[4] + (cs[4] + r5) && r5 == gaps[5] + (cs[5] + r6)
    requires r6 == gaps[6] + (cs[6] + r7) && r7 == gaps[7] + cs[7]
    ensures s == Padded(gaps, cs)
  {
    assert cs[7] + "" == cs[7];
    assert gaps[8..] == [] && cs[8..] == [];
    PaddedStep(gaps, cs, 7);
    PaddedStep(gaps, cs, 6);
    PaddedStep(gaps, cs, 5);
    PaddedStep(gaps, cs, 4);
    PaddedStep(gaps, cs, 3);
    PaddedStep(gaps, cs, 2);
    PaddedStep(gaps, cs, 1);
    PaddedStep(gaps, cs, 0);
    assert gaps[0..] == gaps && cs[0..] == cs;
  }

  lemma PaddedStep(gaps: seq<string>, cs: seq<string>, i: nat)
    requires |gaps| == |cs| && i < |gaps|
    ensures Padded(gaps[i..], cs[i..]) == gaps[i] + (cs[i] + Padded(gaps[i + 1..], cs[i + 1..]))
  {
    assert gaps[i..][1..] == gaps[i + 1..] && cs[i..][1..] == cs[i + 1..];
  }

  /** A layout of columns after runs of spaces starts with a space. */
  lemma PaddedStartsWithSpace(gaps: seq<string>, columns: seq<string>)
    requires |gaps| == |columns| > 0 && IsGap(gaps[0])
    ensures |Padded(gaps, columns)| > 0 && Padded(gaps, columns)[0] == ' '
  {
    assert Padded(gaps, columns)[0] == gaps[0][0];
  }

  /** Skipping a run of spaces before a field that does not start with one. */
  lemma AfterGap(g: string, t: string)
    requires IsGap(g) && (t == [] || t[0] != ' ')
    ensures AfterSpaces(g + t) == Some(t)
  {
    TakeExactly(g, t, Space);
  }

  lemma RunAfterGap(g: string, w: string, rest: string, k: CharClass)
    requires IsGap(g) && k != Space && AllIn(w, k) && |w| > 0
    requires |rest| > 0 && rest[0] == ' '
    ensures Run(g + (w + rest), k) == Some(Cut(w, rest))
  {
    assert InClass(w[0], k);
    AfterGap(g, w + rest);
    TakeExactly(w, rest, k);
  }

  lemma ShortWordAfterGap(g: string, w: string, rest: string)
    requires IsGap(g) && AllIn(w, WordChar) && 0 < |w| <= 30
    requires |rest| > 0 && rest[0] == ' '
    ensures ShortWord(g + (w + rest)) == Some(Cut(w, rest))
  {
    assert InClass(w[0], WordChar);
    AfterGap(g, w + rest);
    TakeExactly(w, rest, WordChar);
  }

  lemma TimeAfterGap(g: string, t: string, rest: string)
    requires IsGap(g) && IsTimeOrYear(t)
    requires |rest| > 0 && rest[0] == ' '
    ensures Time(g + (t + rest)) == Some(Cut(t, rest))
  {
    var s := t + rest;
    assert s[0] == t[0];
    AfterGap(g, s);
    assert s[..|t|] == t && s[|t|..] == rest;
    assert s[1] == t[1] && s[2] == t[2] && s[3] == t[3];
    if |t| == 4 {
      assert IsDigit(t[2]);
    } else {
      assert s[4] == t[4];
    }
  }

  lemma FilenameAfterGap(g: string, name: string)
    requires IsGap(g) && |name| > 0 && name[0] != ' ' && '\n' !in name
    ensures Filename(g + name) == Some(name)
  {
    AfterGap(g, name);
  }

  /** Well-formed fields laid out after any runs of spaces are read back by the column readers. */
  lemma ColumnsOfLayout(f: LsFields, gaps: seq<string>)
    requires WellFormed(f)
    requires |gaps| == 8 && forall g :: g in gaps ==> IsGap(g)
    ensures Columns(f.directory, f.permissions, Padded(gaps, ColumnsOf(f))) == Some(f)
  {
    var g1, g2, g3, g4, g5, g6, g7, g8 := gaps[0], gaps[1], gaps[2], gaps[3], gaps[4], gaps[5], gaps[6], gaps[7];
    assert g1 in gaps && g2 in gaps && g3 in gaps && g4 in gaps;
    assert g5 in gaps && g6 in gaps && g7 in gaps && g8 in gaps;
    var r7 := g8 + f.filename;
    var r6 := g7 + (f.timeOrYear + r7);
    var r5 := g6 + (f.day + r6);
    var r4 := g5 + (f.month + r5);
    var r3 := g4 + (f.size + r4);
    var r2 := g3 + (f.group + r3);
    var r1 := g2 + (f.owner + r2);
    var s := g1 + (f.links + r1);
    ColumnsOfIndex(f);
    PaddedOfCuts(s, gaps, ColumnsOf(f), r1, r2, r3, r4, r5, r6, r7);
    assert r1[0] == g2[0] && r2[0] == g3[0] && r3[0] == g4[0] && r4[0] == g5[0];
    assert r5[0] == g6[0] && r6[0] == g7[0] && r7[0] == g8[0];
    RunAfterGap(g1, f.links, r1, Digit);
    ShortWordAfterGap(g2, f.owner, r2);
    ShortWordAfterGap(g3, f.group, r3);
    RunAfterGap(g4, f.size, r4, Digit);
    RunAfterGap(g5, f.month, r5, WordChar);
    RunAfterGap(g6, f.day, r6, Digit);
    TimeAfterGap(g7, f.timeOrYear, r7);
    FilenameAfterGap(g8, f.filename);
  }

  lemma ColumnsOfIndex(f: LsFields)
    ensures |ColumnsOf(f)| == 8
    ensures ColumnsOf(f)[0] == f.links && ColumnsOf(f)[1] == f.owner && ColumnsOf(f)[2] == f.group
    ensures ColumnsOf(f)[3] == f.size && ColumnsOf(f)[4] == f.month && ColumnsOf(f)[5] == f.day
    ensures ColumnsOf(f)[6] == f.timeOrYear && ColumnsOf(f)[7] == f.filename
  {
  }

  /**
   * `ls_line.match(line)` succeeds with groups `f` exactly when `line` is laid out as the
   * pattern says with `f` in its groups and `f` is a possible match: owner and group not
   * empty, and a file name that does not start with a space.
   */
  lemma SplitLineMatches(line: string, f: LsFields)
    ensures SplitLine(line) == Some(f) <==> WellFormed(f) && Matches(line, f)
  {
    var b := Body(line);
    if SplitLine(line) == Some(f) {
      var gaps := ColumnsLayout(b[0], b[1..10], b[10..], f);
      HeadAndColumns(b);
    }
    if WellFormed(f) && Matches(line, f) {
      var gaps :| |gaps| == 8 && (forall g :: g in gaps ==> IsGap(g))
        && b == [f.directory] + f.permissions + Padded(gaps, ColumnsOf(f));
      assert b[0] == f.directory && b[1..10] == f.permissions && b[10..] == Padded(gaps, ColumnsOf(f));
      ColumnsOfLayout(f, gaps);
    }
  }

  lemma HeadAndColumns(b: string)
    requires |b| >= 10
    ensures b == [b[0]] + b[1..10] + b[10..]
  {
    assert b == b[..1] + b[1..10] + b[10..];
  }

  /** The line `ls -l` writes for the fields, one space between them. */
  function FormatLine(f: LsFields): string {
    Join([[f.directory] + f.permissions, f.links, f.owner, f.group, f.size, f.month, f.day,
          f.timeOrYear, f.filename], ' ')
  }

  /** Taking a class run off `w + r` gives `w` when `w` is in the class and `r` does not start in it. */
  lemma {:induction false} TakeExactly(w: string, r: string, k: CharClass)
    requires AllIn(w, k)
    requires r == [] || !InClass(r[0], k)
    ensures Take(w + r, k) == Cut(w, r)
  {
    if w != [] {
      assert (w + r)[1..] == w[1..] + r;
      TakeExactly(w[1..], r, k);
      assert [w[0]] + w[1..] == w;
    }
  }

  lemma AfterOneSpace(r: string)
    requires r == [] || r[0] != ' '
    ensures AfterSpaces(" " + r) == Some(r)
  {
    TakeExactly(" ", r, Space);
  }

  /** A space, a field, a space and the rest of the line. */
  lemma RunOf(w: string, rest: string, k: CharClass)
    requires AllIn(w, k) && |w| > 0 && k != Space
    ensures Run(" " + (w + " " + rest), k) == Some(Cut(w, " " + rest))
  {
    assert w + " " + rest == w + (" " + rest);
    assert IsGap(" ");
    RunAfterGap(" ", w, " " + rest, k);
  }

  lemma ShortWordOf(w: string, rest: string)
    requires AllIn(w, WordChar) && 0 < |w| <= 30
    ensures ShortWord(" " + (w + " " + rest)) == Some(Cut(w, " " + rest))
  {
    assert w + " " + rest == w + (" " + rest);
    assert IsGap(" ");
    ShortWordAfterGap(" ", w, " " + rest);
  }

  lemma TimeOf(t: string, rest: string)
    requires IsTimeOrYear(t)
    ensures Time(" " + (t + " " + rest)) == Some(Cut(t, " " + rest))
  {
    AfterOneSpace(t + " " + rest);
    TimeOrYearOf(t, rest);
  }

  lemma TimeOrYearOf(t: string, rest: string)
    requires IsTimeOrYear(t)
    ensures TimeOrYear(t + " " + rest) == Some(Cut(t, " " + rest))
  {
    var s := t + " " + rest;
    assert s[..|t|] == t && s[|t|..] == " " + rest;
    assert s[0] == t[0] && s[1] == t[1] && s[2] == t[2] && s[3] == t[3];
    if |t| == 4 {
      assert IsDigit(t[2]);
    } else {
      assert s[4] == t[4];
    }
  }

  lemma FilenameOf(name: string)
    requires |name| > 0 && name[0] != ' ' && '\n' !in name
    ensures Filename(" " + name) == Some(name)
  {
    AfterOneSpace(name);
  }

  /** Every line the formatter writes is matched, and the match gives back the fields. */
  lemma SplitFormatLine(f: LsFields)
    requires WellFormed(f)
    ensures SplitLine(FormatLine(f)) == Some(f)
  {
    var ws := [[f.directory] + f.permissions, f.links, f.owner, f.group, f.size, f.month, f.day,
               f.timeOrYear, f.filename];
    var line := FormatLine(f);
    var j1 := Join(ws[1..], ' ');
    assert line == ws[0] + " " + j1;
    assert line[|line| - 1] == f.filename[|f.filename| - 1] by {
      JoinEndsWithLast(ws, ' ');
    }
    assert Body(line) == line;
    assert line[10..] == " " + j1 && line[1..10] == f.permissions && line[0] == f.directory;
    ColumnsOfFormat(f, ws);
  }

  /** The columns as the formatter writes them read back as the fields. */
  lemma ColumnsOfFormat(f: LsFields, ws: seq<string>)
    requires WellFormed(f)
    requires ws == [[f.directory] + f.permissions, f.links, f.owner, f.group, f.size, f.month, f.day,
                    f.timeOrYear, f.filename]
    ensures Columns(f.directory, f.permissions, " " + Join(ws[1..], ' ')) == Some(f)
  {
    assert Join(ws[8..], ' ') == f.filename;
    assert Join(ws[7..], ' ') == f.timeOrYear + " " + Join(ws[8..], ' ');
    assert Join(ws[6..], ' ') == f.day + " " + Join(ws[7..], ' ');
    assert Join(ws[5..], ' ') == f.month + " " + Join(ws[6..], ' ');
    assert Join(ws[4..], ' ') == f.size + " " + Join(ws[5..], ' ');
    assert Join(ws[3..], ' ') == f.group + " " + Join(ws[4..], ' ');
    assert Join(ws[2..], ' ') == f.owner + " " + Join(ws[3..], ' ');
    assert Join(ws[1..], ' ') == f.links + " " + Join(ws[2..], ' ');
    RunOf(f.links, Join(ws[2..], ' '), Digit);
    ShortWordOf(f.owner, Join(ws[3..], ' '));
    ShortWordOf(f.group, Join(ws[4..], ' '));
    RunOf(f.size, Join(ws[5..], ' '), Digit);
    RunOf(f.month, Join(ws[6..], ' '), WordChar);
    RunOf(f.day, Join(ws[7..], ' '), Digit);
    TimeOf(f.timeOrYear, Join(ws[8..], ' '));
    FilenameOf(f.filename);
  }
}
