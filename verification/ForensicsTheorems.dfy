/** What the post-mortem reader makes of every log the writer can leave. */
module ForensicsTheorems {
  import opened Common
  import opened LogText
  import opened ForensicsSpec

  // ---------------------------------------------------------------- the directory

  predicate Sorted(disk: Disk) {
    forall i, j | 0 <= i < j < |disk| :: disk[i].day < disk[j].day
  }

  predicate AllWhole(disk: Disk) {
    forall f | f in disk :: Whole(f.content)
  }

  predicate NotAfter(disk: Disk, day: int) {
    disk != [] ==> disk[|disk| - 1].day <= day
  }

  function Last(disk: Disk): File
    requires disk != []
  {
    disk[|disk| - 1]
  }

  /** The file that today's writes go to, as it is now. */
  function Today(disk: Disk, day: int): File {
    if disk != [] && Last(disk).day == day then Last(disk) else File(day, "")
  }

  function Older(disk: Disk, day: int): Disk {
    if disk != [] && Last(disk).day == day then disk[..|disk| - 1] else disk
  }

  lemma {:induction false} AppendToday(disk: Disk, day: int, text: string)
    requires Sorted(disk) && NotAfter(disk, day)
    ensures Append(disk, day, text) == Older(disk, day) + [File(day, Today(disk, day).content + text)]
    ensures ContentOf(disk, day) == Today(disk, day).content
    decreases |disk|
  {
    assert "" + text == text;
    if disk == [] {
    } else if disk[0].day == day {
      assert |disk| == 1;
      assert disk[1..] == [] && disk[..0] == [];
    } else {
      assert disk[0].day < day by {
        assert disk[0].day <= Last(disk).day;
      }
      TodayRest(disk, day);
      AppendToday(disk[1..], day, text);
    }
  }

  lemma TodayRest(disk: Disk, day: int)
    requires disk != [] && disk[0].day < day
    ensures Today(disk, day) == Today(disk[1..], day)
    ensures Older(disk, day) == [disk[0]] + Older(disk[1..], day)
  {
    assert disk == [disk[0]] + disk[1..];
  }

  lemma SnocSorted(older: Disk, f: File)
    requires Sorted(older) && (older != [] ==> Last(older).day < f.day)
    requires AllWhole(older) && Whole(f.content)
    ensures Sorted(older + [f]) && AllWhole(older + [f])
  {
  }

  lemma OlderKeeps(disk: Disk, day: int)
    requires Sorted(disk) && NotAfter(disk, day) && AllWhole(disk)
    ensures var o := Older(disk, day); Sorted(o) && AllWhole(o) && (o != [] ==> Last(o).day < day)
  {
  }

  lemma AppendKeeps(disk: Disk, day: int, text: string)
    requires Sorted(disk) && NotAfter(disk, day) && AllWhole(disk)
    requires Whole(Today(disk, day).content + text)
    ensures var d := Append(disk, day, text); Sorted(d) && NotAfter(d, day) && AllWhole(d)
  {
    AppendToday(disk, day, text);
    OlderKeeps(disk, day);
    SnocSorted(Older(disk, day), File(day, Today(disk, day).content + text));
  }

  // ---------------------------------------------------------------- one file

  predicate Headed(s: Session, header: Option<Fields>) {
    s.segments != [] && s.segments[|s.segments| - 1].header == header
  }

  /** The scan's header is the last header line, and heads the open segment. */
  predicate ScanFits(sc: Scan, last: Option<string>) {
    && (sc.header == match last case None => None case Some(h) => Some(Split(h, ',')))
    && (sc.sessions != [] ==> Headed(sc.sessions[|sc.sessions| - 1], sc.header))
  }

  lemma LastHeaderSnoc(lines: seq<string>, line: string)
    ensures LastHeader(lines + [line]) == if "ts," <= line then Some(line) else LastHeader(lines)
  {
    assert (lines + [line])[..|lines|] == lines;
  }

  lemma ReadFits(sc: Scan, last: Option<string>, line: string, file: int)
    requires ScanFits(sc, last)
    ensures ScanFits(ReadLine(sc, line, file), if "ts," <= line then Some(line) else last)
  {
    var sessions := if sc.sessions == [] then [Opened(IMPLICIT_START, sc.header, file, true)] else sc.sessions;
    AddRowHeaded(sessions[|sessions| - 1], Split(line, ','), sc.header);
  }

  lemma AddRowHeaded(s: Session, fields: Fields, header: Option<Fields>)
    requires Headed(s, header)
    ensures Headed(AddRow(s, fields), header)
  {
  }

  lemma {:induction false} LoadFits(lines: seq<string>, file: int)
    ensures ScanFits(Load(lines, file), LastHeader(lines))
  {
    if lines != [] {
      var n := |lines| - 1;
      LoadFits(lines[..n], file);
      ReadFits(Load(lines[..n], file), LastHeader(lines[..n]), lines[n], file);
      LastHeaderSnoc(lines[..n], lines[n]);
      assert lines == lines[..n] + [lines[n]];
    }
  }

  /** No row was dropped, and no row came before a start marker. */
  predicate Plain(ss: seq<Session>) {
    forall s | s in ss :: s.skipped == 0 && !s.implicit
  }

  predicate AllPlain(disk: Disk) {
    forall f | f in disk :: Plain(LoadFile(f).sessions)
  }

  lemma LoadAppend(f: File, text: string)
    requires Whole(f.content) && '\n' !in text
    ensures LoadFile(File(f.day, f.content + (text + "\n"))) == ReadLine(LoadFile(f), text, f.day)
  {
    LinesAppend(f.content, text);
    var lines := Lines(f.content) + [text];
    assert lines[..|lines| - 1] == Lines(f.content);
  }

  // ---------------------------------------------------------------- merging

  lemma FlattenConcat(a: seq<Segment>, b: seq<Segment>)
    ensures Flatten(a + b) == Flatten(a) + Flatten(b)
  {
    if b == [] {
      assert a + b == a;
    } else {
      var ab := a + b;
      assert ab[..|ab| - 1] == a + b[..|b| - 1];
      FlattenConcat(a, b[..|b| - 1]);
    }
  }

  /** The reports of `found` once its last session has gained `rows`. */
  function Grown(accounts: seq<Account>, rows: seq<Sample>, clean: bool): seq<Account>
    requires accounts != []
  {
    var a := accounts[|accounts| - 1];
    Amend(accounts, a.(rows := a.rows + rows, clean := clean))
  }

  lemma MergeSnoc(found: seq<Session>, ss: seq<Session>, s: Session)
    ensures Merge(found, ss + [s]) == MergeOne(Merge(found, ss), s)
  {
    assert (ss + [s])[..|ss|] == ss;
  }

  lemma MergeOneReports(found: seq<Session>, s: Session)
    ensures Reports(MergeOne(found, s))
         == if found != [] && Continues(s) then Grown(Reports(found), Flatten(s.segments), s.clean)
            else Reports(found) + [Report(s)]
  {
    if found != [] && Continues(s) {
      FlattenConcat(found[|found| - 1].segments, s.segments);
    }
  }

  lemma GrownTwice(accounts: seq<Account>, a: seq<Sample>, c: bool, b: seq<Sample>, d: bool)
    requires accounts != []
    ensures Grown(accounts, a, c) != [] && Grown(Grown(accounts, a, c), b, d) == Grown(accounts, a + b, d)
  {
    var last := accounts[|accounts| - 1];
    assert (last.rows + a) + b == last.rows + (a + b);
  }

  lemma GrownLast(accounts: seq<Account>, a: Account, rows: seq<Sample>, c: bool)
    ensures Grown(accounts + [a], rows, c) == accounts + [a.(rows := a.rows + rows, clean := c)]
  {
    assert (accounts + [a])[..|accounts|] == accounts;
  }

  /** A later version of the last session of a file shows in the report as it grew. */
  lemma MergeGrows(found: seq<Session>, ss: seq<Session>, s: Session, t: Session, rows: seq<Sample>)
    requires t.start == s.start && t.implicit == s.implicit
    requires Flatten(t.segments) == Flatten(s.segments) + rows
    ensures Reports(Merge(found, ss + [s])) != []
    ensures Reports(Merge(found, ss + [t])) == Grown(Reports(Merge(found, ss + [s])), rows, t.clean)
  {
    MergeSnoc(found, ss, s);
    MergeSnoc(found, ss, t);
    var m := Merge(found, ss);
    MergeOneReports(m, s);
    MergeOneReports(m, t);
    if m != [] && Continues(s) {
      GrownTwice(Reports(m), Flatten(s.segments), s.clean, rows, t.clean);
    } else {
      GrownLast(Reports(m), Report(s), rows, t.clean);
    }
  }

  /** The last session found ends as the last session of the newest file does. */
  lemma MergeLast(found: seq<Session>, ss: seq<Session>)
    requires ss != []
    ensures var m := Merge(found, ss);
      m != [] && m[|m| - 1].clean == ss[|ss| - 1].clean && m[|m| - 1].file == ss[|ss| - 1].file
  {
  }

  // ---------------------------------------------------------------- one line

  /** What every append keeps: the directory reads back as these accounts. */
  predicate Reads(disk: Disk, day: int, accounts: seq<Account>) {
    && Sorted(disk) && NotAfter(disk, day) && AllWhole(disk) && AllPlain(disk)
    && Reports(AllSessions(disk)) == accounts
  }

  function Scanned(disk: Disk, day: int): Scan {
    LoadFile(Today(disk, day))
  }

  lemma AllToday(disk: Disk, day: int)
    requires Sorted(disk) && NotAfter(disk, day)
    ensures AllSessions(disk) == Merge(AllSessions(Older(disk, day)), Scanned(disk, day).sessions)
  {
  }

  /** A line lands at the end of today's file and nowhere else. */
  lemma LineLands(disk: Disk, day: int, line: string)
    requires Sorted(disk) && NotAfter(disk, day) && AllWhole(disk) && '\n' !in line
    ensures var d := Append(disk, day, line + "\n");
      && Sorted(d) && NotAfter(d, day) && AllWhole(d) && d != [] && Last(d).day == day
      && Older(d, day) == Older(disk, day)
      && Scanned(d, day) == ReadLine(Scanned(disk, day), line, day)
      && AllSessions(d) == Merge(AllSessions(Older(disk, day)), Scanned(d, day).sessions)
  {
    var f := Today(disk, day);
    LinesAppend(f.content, line);
    AppendKeeps(disk, day, line + "\n");
    AppendToday(disk, day, line + "\n");
    LoadAppend(f, line);
    var d := Append(disk, day, line + "\n");
    assert d[..|d| - 1] == Older(disk, day);
    AllToday(d, day);
  }

  lemma PlainLands(disk: Disk, day: int, line: string)
    requires Sorted(disk) && NotAfter(disk, day) && AllWhole(disk) && '\n' !in line
    requires AllPlain(disk) && Plain(ReadLine(Scanned(disk, day), line, day).sessions)
    ensures AllPlain(Append(disk, day, line + "\n"))
  {
    LineLands(disk, day, line);
    AppendToday(disk, day, line + "\n");
    var d := Append(disk, day, line + "\n");
    assert Today(d, day) == Last(d);
    forall f | f in d ensures Plain(LoadFile(f).sessions) {
      if f != Last(d) {
        assert f in Older(disk, day);
      }
    }
  }

  lemma TodayPlain(disk: Disk, day: int)
    requires AllPlain(disk)
    ensures Plain(Scanned(disk, day).sessions)
  {
    assert LoadFile(File(day, "")).sessions == [];
  }

  lemma LineSame(disk: Disk, day: int, line: string, accounts: seq<Account>)
    requires Reads(disk, day, accounts) && '\n' !in line
    requires ReadLine(Scanned(disk, day), line, day).sessions == Scanned(disk, day).sessions
    ensures Reads(Append(disk, day, line + "\n"), day, accounts)
  {
    TodayPlain(disk, day);
    LineLands(disk, day, line);
    PlainLands(disk, day, line);
    AllToday(disk, day);
  }

  lemma LineGrows(disk: Disk, day: int, line: string, accounts: seq<Account>, t: Session, rows: seq<Sample>)
    requires Reads(disk, day, accounts) && '\n' !in line
    requires var ss := Scanned(disk, day).sessions;
      && ss != []
      && ReadLine(Scanned(disk, day), line, day).sessions == UpdateLast(ss, t)
      && var s := ss[|ss| - 1];
         t.start == s.start && t.implicit == s.implicit && t.skipped == s.skipped
         && Flatten(t.segments) == Flatten(s.segments) + rows
    ensures accounts != []
    ensures Reads(Append(disk, day, line + "\n"), day, Grown(accounts, rows, t.clean))
  {
    TodayPlain(disk, day);
    var ss := Scanned(disk, day).sessions;
    PlainUpdate(ss, t);
    LineLands(disk, day, line);
    PlainLands(disk, day, line);
    AllToday(disk, day);
    MergeUpdates(AllSessions(Older(disk, day)), ss, t, rows);
  }

  lemma PlainUpdate(ss: seq<Session>, t: Session)
    requires Plain(ss) && ss != []
    requires t.implicit == ss[|ss| - 1].implicit && t.skipped == ss[|ss| - 1].skipped
    ensures Plain(UpdateLast(ss, t))
  {
    assert ss[|ss| - 1] in ss;
  }

  lemma MergeUpdates(found: seq<Session>, ss: seq<Session>, t: Session, rows: seq<Sample>)
    requires ss != []
    requires var s := ss[|ss| - 1];
      && t.start == s.start && t.implicit == s.implicit
      && Flatten(t.segments) == Flatten(s.segments) + rows
    ensures Reports(Merge(found, ss)) != []
    ensures Reports(Merge(found, UpdateLast(ss, t))) == Grown(Reports(Merge(found, ss)), rows, t.clean)
  {
    assert ss == ss[..|ss| - 1] + [ss[|ss| - 1]];
    MergeGrows(found, ss[..|ss| - 1], ss[|ss| - 1], t, rows);
  }

  lemma LineOpens(disk: Disk, day: int, line: string, accounts: seq<Account>, s: Session)
    requires Reads(disk, day, accounts) && '\n' !in line
    requires ReadLine(Scanned(disk, day), line, day).sessions == Scanned(disk, day).sessions + [s]
    requires s.skipped == 0 && !s.implicit
    ensures Reads(Append(disk, day, line + "\n"), day,
                  if accounts != [] && Continues(s) then Grown(accounts, Flatten(s.segments), s.clean)
                  else accounts + [Report(s)])
  {
    TodayPlain(disk, day);
    LineLands(disk, day, line);
    PlainLands(disk, day, line);
    AllToday(disk, day);
    MergeSnoc(AllSessions(Older(disk, day)), Scanned(disk, day).sessions, s);
    MergeOneReports(AllSessions(disk), s);
  }

  /** The last account and the open session of today's file agree on being clean. */
  lemma TodayClean(disk: Disk, day: int, accounts: seq<Account>)
    requires Reads(disk, day, accounts) && Scanned(disk, day).sessions != []
    ensures var ss := Scanned(disk, day).sessions;
      accounts != [] && accounts[|accounts| - 1].clean == ss[|ss| - 1].clean
  {
    AllToday(disk, day);
    MergeLast(AllSessions(Older(disk, day)), Scanned(disk, day).sessions);
  }

  lemma GrownSame(accounts: seq<Account>)
    requires accounts != []
    ensures Grown(accounts, [], accounts[|accounts| - 1].clean) == accounts
  {
    var a := accounts[|accounts| - 1];
    assert a.rows + [] == a.rows;
  }

  /** A line that changes neither rows nor ending of the open session. */
  lemma LineKeeps(disk: Disk, day: int, line: string, accounts: seq<Account>, t: Session)
    requires Reads(disk, day, accounts) && '\n' !in line
    requires var ss := Scanned(disk, day).sessions;
      && ss != []
      && ReadLine(Scanned(disk, day), line, day).sessions == UpdateLast(ss, t)
      && var s := ss[|ss| - 1];
         t.start == s.start && t.implicit == s.implicit && t.skipped == s.skipped && t.clean == s.clean
         && Flatten(t.segments) == Flatten(s.segments)
    ensures Reads(Append(disk, day, line + "\n"), day, accounts)
  {
    assert Flatten(t.segments) == Flatten(t.segments) + [];
    TodayClean(disk, day, accounts);
    LineGrows(disk, day, line, accounts, t, []);
    GrownSame(accounts);
  }

  // ---------------------------------------------------------------- the writer's lines

  lemma Touches(disk: Disk, day: int, accounts: seq<Account>)
    requires Reads(disk, day, accounts)
    ensures var d := Append(disk, day, "");
      Reads(d, day, accounts) && d != [] && Last(d).day == day && Today(d, day) == Today(disk, day)
  {
    var f := Today(disk, day);
    assert f.content + "" == f.content;
    AppendKeeps(disk, day, "");
    AppendToday(disk, day, "");
    var d := Append(disk, day, "");
    assert d == Older(disk, day) + [f] && d[..|d| - 1] == Older(disk, day);
    TodayPlain(disk, day);
    forall g | g in d ensures Plain(LoadFile(g).sessions) {
      if g != f {
        assert g in Older(disk, day);
      }
    }
    AllToday(disk, day);
  }

  lemma WritesHeader(disk: Disk, day: int, accounts: seq<Account>, header: Fields)
    requires Reads(disk, day, accounts) && GoodHeader(header)
    ensures var d := Append(disk, day, Join(header, ',') + "\n");
      && Reads(d, day, accounts)
      && d != [] && Last(d).day == day && Scanned(d, day).header == Some(header)
  {
    var line := Join(header, ',');
    SplitJoin(header, ',');
    JoinFree(header, ',', '\n');
    assert "ts," <= line;
    LineLands(disk, day, line);
    var ss := Scanned(disk, day).sessions;
    if ss == [] {
      LineSame(disk, day, line, accounts);
    } else {
      var s := ss[|ss| - 1];
      var t := s.(segments := s.segments + [Segment(Some(header), [])]);
      FlattenConcat(s.segments, [Segment(Some(header), [])]);
      assert Flatten([Segment(Some(header), [])]) == [];
      assert Flatten(s.segments) + [] == Flatten(s.segments);
      LineKeeps(disk, day, line, accounts, t);
    }
  }

  lemma WritesRollover(disk: Disk, day: int, accounts: seq<Account>, stamp: string)
    requires Reads(disk, day, accounts) && '\n' !in stamp
    ensures Reads(Append(disk, day, RolloverLine(stamp) + "\n"), day, accounts)
  {
    assert "#ROLLOVER" <= RolloverLine(stamp);
    RolloverLands(disk, day, accounts, RolloverLine(stamp));
  }

  lemma RolloverLands(disk: Disk, day: int, accounts: seq<Account>, line: string)
    requires Reads(disk, day, accounts) && "#ROLLOVER" <= line && '\n' !in line
    ensures Reads(Append(disk, day, line + "\n"), day, accounts)
  {
    ReadsRollover(Scanned(disk, day), line, day);
    var ss := Scanned(disk, day).sessions;
    if ss == [] {
      LineSame(disk, day, line, accounts);
    } else {
      LineKeeps(disk, day, line, accounts, ss[|ss| - 1].(rolled := true));
    }
  }

  lemma WritesBoot(disk: Disk, day: int, accounts: seq<Account>, line: string)
    requires Reads(disk, day, accounts) && "#BOOT_START" <= line && '\n' !in line
    ensures var d := Append(disk, day, line + "\n");
      && (!Contains(line, RESUMED_MARK) ==> Reads(d, day, accounts + [Account(line, [], false)]))
      && ((Contains(line, RESUMED_MARK) && accounts != [] && !accounts[|accounts| - 1].clean) ==> Reads(d, day, accounts))
      && d != [] && Last(d).day == day
      && Scanned(d, day).header == Scanned(disk, day).header && Scanned(d, day).sessions != []
  {
    assert line[0] == '#' && line[1] == 'B';
    var s := Opened(line, Scanned(disk, day).header, day, false);
    assert Flatten(s.segments) == [];
    LineLands(disk, day, line);
    LineOpens(disk, day, line, accounts, s);
    if accounts != [] {
      GrownSame(accounts);
    }
  }

  lemma WritesStop(disk: Disk, day: int, accounts: seq<Account>, line: string)
    requires Reads(disk, day, accounts) && "#CLEAN_STOP" <= line && '\n' !in line
    requires Scanned(disk, day).sessions != [] && accounts != []
    ensures Reads(Append(disk, day, line + "\n"), day, Grown(accounts, [], true))
  {
    ReadsStop(Scanned(disk, day), line, day);
    var ss := Scanned(disk, day).sessions;
    var s := ss[|ss| - 1];
    assert Flatten(s.segments) == Flatten(s.segments) + [];
    LineGrows(disk, day, line, accounts, s.(clean := true, stop := Some(line)), []);
  }

  lemma FirstField(first: string, rest: string)
    requires ',' !in first
    ensures "ts," <= first + [','] + rest ==> first == "ts"
    ensures "#" <= first + [','] + rest ==> "#" <= first
  {
    var line := first + [','] + rest;
    assert line[|first|] == ',' && line[..|first|] == first;
    if |first| >= 3 {
      assert first[2] in first && line[2] == first[2];
    } else if |first| == 2 {
      assert line[0] == first[0] && line[1] == first[1];
    }
  }

  /** A row line is none of the markers. */
  lemma RowLine(fields: Fields, header: Fields)
    requires GoodRow(fields, header) && |header| >= 2
    ensures var line := Join(fields, ',');
      line != "" && !("ts," <= line) && !("#" <= line) && '\n' !in line && Split(line, ',') == fields
  {
    var line := Join(fields, ',');
    SplitJoin(fields, ',');
    JoinFree(fields, ',', '\n');
    assert fields[0] in fields;
    FirstField(fields[0], Join(fields[1..], ','));
  }

  lemma WritesRow(disk: Disk, day: int, accounts: seq<Account>, fields: Fields, header: Fields)
    requires Reads(disk, day, accounts) && accounts != []
    requires GoodRow(fields, header) && |header| >= 2
    requires Scanned(disk, day).sessions != [] && Scanned(disk, day).header == Some(header)
    requires !accounts[|accounts| - 1].clean
    ensures Reads(Append(disk, day, Join(fields, ',') + "\n"), day,
                  Grown(accounts, [Sample(Some(header), fields)], false))
  {
    RowLine(fields, header);
    RowLands(disk, day, accounts, Join(fields, ','), fields, header);
  }

  lemma RowLands(disk: Disk, day: int, accounts: seq<Account>, line: string, fields: Fields, header: Fields)
    requires Reads(disk, day, accounts) && accounts != [] && !accounts[|accounts| - 1].clean
    requires line != "" && !("ts," <= line) && !("#" <= line) && '\n' !in line && Split(line, ',') == fields
    requires |fields| == |header|
    requires Scanned(disk, day).sessions != [] && Scanned(disk, day).header == Some(header)
    ensures Reads(Append(disk, day, line + "\n"), day, Grown(accounts, [Sample(Some(header), fields)], false))
  {
    var sc := Scanned(disk, day);
    var s := sc.sessions[|sc.sessions| - 1];
    ScannedFits(disk, day);
    TodayClean(disk, day, accounts);
    AddRowFlattens(s, fields, header);
    ReadsRow(sc, line, day);
    LineGrows(disk, day, line, accounts, AddRow(s, fields), [Sample(Some(header), fields)]);
  }

  lemma ScannedFits(disk: Disk, day: int)
    ensures var sc := Scanned(disk, day);
      sc.sessions != [] ==> Headed(sc.sessions[|sc.sessions| - 1], sc.header)
  {
    FileHeaded(Today(disk, day));
  }

  lemma FileHeaded(f: File)
    ensures var sc := LoadFile(f);
      sc.sessions != [] ==> Headed(sc.sessions[|sc.sessions| - 1], sc.header)
  {
    LoadHeaded(Lines(f.content), f.day);
  }

  lemma LoadHeaded(lines: seq<string>, file: int)
    ensures var sc := Load(lines, file);
      sc.sessions != [] ==> Headed(sc.sessions[|sc.sessions| - 1], sc.header)
  {
    LoadFits(lines, file);
  }

  lemma ReadsRollover(sc: Scan, line: string, file: int)
    requires "#ROLLOVER" <= line
    ensures ReadLine(sc, line, file) ==
      if sc.sessions == [] then sc
      else sc.(sessions := UpdateLast(sc.sessions, sc.sessions[|sc.sessions| - 1].(rolled := true)))
  {
    assert line[0] == '#' && line[1] == 'R';
  }

  lemma ReadsStop(sc: Scan, line: string, file: int)
    requires "#CLEAN_STOP" <= line && sc.sessions != []
    ensures ReadLine(sc, line, file) ==
      sc.(sessions := UpdateLast(sc.sessions, sc.sessions[|sc.sessions| - 1].(clean := true, stop := Some(line))))
  {
    assert line[0] == '#' && line[1] == 'C';
  }

  lemma ReadsRow(sc: Scan, line: string, file: int)
    requires line != "" && !("#" <= line) && !("ts," <= line) && sc.sessions != []
    ensures ReadLine(sc, line, file) ==
      sc.(sessions := UpdateLast(sc.sessions, AddRow(sc.sessions[|sc.sessions| - 1], Split(line, ','))))
  {
    assert line[0] != '#';
  }

  lemma AddRowFlattens(s: Session, fields: Fields, header: Fields)
    requires Headed(s, Some(header)) && |fields| == |header|
    ensures var t := AddRow(s, fields);
      && t.start == s.start && t.implicit == s.implicit && t.skipped == s.skipped && t.clean == s.clean
      && Flatten(t.segments) == Flatten(s.segments) + [Sample(Some(header), fields)]
  {
    var n := |s.segments| - 1;
    var t := AddRow(s, fields);
    assert t.segments[..n] == s.segments[..n];
    var seg := s.segments[n];
    assert RowsOf(t.segments[n]) == RowsOf(seg) + [Sample(Some(header), fields)];
    assert Flatten(t.segments) == Flatten(s.segments[..n]) + RowsOf(t.segments[n]);
  }
}
