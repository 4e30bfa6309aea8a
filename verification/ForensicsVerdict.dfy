/** When the start-up verdict and the post-mortem reader agree, on any directory. */
module ForensicsVerdict {
  import opened Common
  import opened LogText
  import opened ForensicsSpec
  import opened ForensicsTheorems
  import opened ForensicsRoundTrip

  // ---------------------------------------------------------------- one file

  predicate StartIn(lines: seq<string>) {
    exists line | line in lines :: "#BOOT_START" <= line
  }

  /** The file holds a start marker. */
  predicate HasStart(f: File) {
    StartIn(Lines(f.content))
  }

  lemma StartSnoc(lines: seq<string>, line: string)
    ensures StartIn(lines + [line]) <==> StartIn(lines) || "#BOOT_START" <= line
  {
    if l :| l in lines && "#BOOT_START" <= l {
      assert l in lines + [line];
    }
    assert line in lines + [line];
  }

  /** What one scan and the marks of the same lines have in common, in any file. */
  predicate Matched(ss: seq<Session>, m: Marks, file: int) {
    && (m.start.Some? ==>
          && ss != []
          && var s := ss[|ss| - 1];
             m.start == Some(Strip(s.start)) && (m.stop.Some? <==> s.clean) && s.file == file)
    && (m.start.None? ==> forall s | s in ss :: s.implicit)
  }

  lemma StopMatched(sc: Scan, m: Marks, line: string, file: int)
    requires Matched(sc.sessions, m, file) && "#CLEAN_STOP" <= line
    ensures Matched(ReadLine(sc, line, file).sessions, MarkLine(m, line), file)
  {
    assert line[0] == '#' && line[1] == 'C';
    var after := ReadLine(sc, line, file).sessions;
    if sc.sessions != [] {
      assert sc.sessions[|sc.sessions| - 1] in sc.sessions;
      assert forall s | s in after :: s in sc.sessions || s == after[|after| - 1];
    }
  }

  /** Lines that are no marker keep start, ending and file of an open session. */
  lemma OtherLine(sc: Scan, line: string, file: int)
    requires !("#BOOT_START" <= line) && !("#CLEAN_STOP" <= line)
    ensures var after := ReadLine(sc, line, file).sessions;
      && (sc.sessions != [] ==>
            && |after| == |sc.sessions| && after[..|after| - 1] == sc.sessions[..|after| - 1]
            && var s, t := sc.sessions[|after| - 1], after[|after| - 1];
               t.start == s.start && t.clean == s.clean && t.file == s.file && t.implicit == s.implicit)
      && (sc.sessions == [] ==> after == [] || (|after| == 1 && after[0].implicit))
  {
  }

  lemma OtherMatched(sc: Scan, m: Marks, line: string, file: int)
    requires Matched(sc.sessions, m, file) && !("#BOOT_START" <= line) && !("#CLEAN_STOP" <= line)
    ensures Matched(ReadLine(sc, line, file).sessions, MarkLine(m, line), file)
  {
    OtherLine(sc, line, file);
    var ss, after := sc.sessions, ReadLine(sc, line, file).sessions;
    forall t | t in after && m.start.None? ensures t.implicit {
      if ss != [] {
        assert ss[|ss| - 1] in ss;
        assert t in after[..|after| - 1] || t == after[|after| - 1];
      }
    }
  }

  lemma LineMatched(sc: Scan, m: Marks, line: string, file: int)
    requires Matched(sc.sessions, m, file)
    ensures Matched(ReadLine(sc, line, file).sessions, MarkLine(m, line), file)
  {
    if "#BOOT_START" <= line {
      assert line[0] == '#' && line[1] == 'B';
    } else if "#CLEAN_STOP" <= line {
      StopMatched(sc, m, line, file);
    } else {
      OtherMatched(sc, m, line, file);
    }
  }

  lemma {:induction false} ScanMatched(lines: seq<string>, file: int)
    ensures Matched(Load(lines, file).sessions, MarksOf(lines), file)
    decreases |lines|
  {
    if lines != [] {
      var n := |lines| - 1;
      ScanMatched(lines[..n], file);
      LineMatched(Load(lines[..n], file), MarksOf(lines[..n]), lines[n], file);
    }
  }

  lemma {:induction false} MarksStart(lines: seq<string>)
    ensures MarksOf(lines).start.Some? <==> StartIn(lines)
    decreases |lines|
  {
    if lines != [] {
      var n := |lines| - 1;
      MarksStart(lines[..n]);
      StartSnoc(lines[..n], lines[n]);
      assert lines == lines[..n] + [lines[n]];
    }
  }

  /** A file with a start marker ends as its last session does; one without has none. */
  lemma FileMatched(f: File)
    ensures var ss, m := LoadFile(f).sessions, MarksOf(Lines(f.content));
      Matched(ss, m, f.day) && (m.start.Some? <==> HasStart(f))
  {
    ScanMatched(Lines(f.content), f.day);
    MarksStart(Lines(f.content));
  }

  // ---------------------------------------------------------------- directories

  /** The files up to the newest one that yields a session. */
  function Yielding(disk: Disk): (part: Disk)
    ensures part <= disk && (part != [] ==> LoadFile(Last(part)).sessions != [])
  {
    if disk == [] || LoadFile(disk[|disk| - 1]).sessions != [] then disk else Yielding(disk[..|disk| - 1])
  }

  /** A file without sessions tells neither reader anything. */
  lemma SilentFile(older: Disk, f: File)
    requires LoadFile(f).sessions == []
    ensures AllSessions(older + [f]) == AllSessions(older) && VerdictOf(older + [f]) == VerdictOf(older)
  {
    assert (older + [f])[..|older|] == older;
    FileMatched(f);
  }

  lemma StillYielding(disk: Disk, older: Disk, f: File)
    requires disk == older + [f] && LoadFile(f).sessions == []
    ensures Yielding(disk) == Yielding(older)
  {
    assert disk[..|disk| - 1] == older;
  }

  lemma {:induction false} OnlyYielding(disk: Disk)
    ensures AllSessions(disk) == AllSessions(Yielding(disk)) && VerdictOf(disk) == VerdictOf(Yielding(disk))
    decreases |disk|
  {
    if disk != [] {
      var older, f := disk[..|disk| - 1], disk[|disk| - 1];
      assert disk == older + [f];
      if LoadFile(f).sessions == [] {
        StillYielding(disk, older, f);
        OnlyYielding(older);
        SilentFile(older, f);
      } else {
        assert Yielding(disk) == disk;
      }
    }
  }

  /** A verdict comes exactly when the last session rebuilt is not clean. */
  predicate ReadersAgreeOn(disk: Disk) {
    var all := AllSessions(disk);
    VerdictOf(disk).Some? <==> all != [] && !all[|all| - 1].clean
  }

  /** On any directory: the readers agree if and only if no file yields a session, or the
      newest that does holds a start marker, or its last session is clean exactly when the
      files before it give no verdict. */
  lemma ReadersIff(disk: Disk)
    ensures var part := Yielding(disk);
      ReadersAgreeOn(disk) <==>
        part == [] || HasStart(Last(part))
        || var ss := LoadFile(Last(part)).sessions; (ss[|ss| - 1].clean <==> VerdictOf(part[..|part| - 1]) == None)
  {
    OnlyYielding(disk);
    if Yielding(disk) != [] {
      NewestDecides(Yielding(disk));
    }
  }

  lemma NewestDecides(part: Disk)
    requires part != [] && LoadFile(part[|part| - 1]).sessions != []
    ensures var f, older := part[|part| - 1], part[..|part| - 1];
      var ss, all := LoadFile(f).sessions, AllSessions(part);
      && all != [] && all[|all| - 1].clean == ss[|ss| - 1].clean
      && (HasStart(f) ==> (VerdictOf(part).Some? <==> !ss[|ss| - 1].clean))
      && (HasStart(f) && VerdictOf(part).Some? ==> VerdictOf(part).value.file == all[|all| - 1].file)
      && (!HasStart(f) ==> VerdictOf(part) == VerdictOf(older))
  {
    var f, older := part[|part| - 1], part[..|part| - 1];
    FileMatched(f);
    MergeLast(AllSessions(older), LoadFile(f).sessions);
  }

  /** Where that file holds a start marker, a verdict names it, the start of its last session
      as written there, and its last sample. */
  lemma VerdictNamesFile(disk: Disk)
    requires Yielding(disk) != [] && HasStart(Last(Yielding(disk))) && VerdictOf(disk).Some?
    ensures var all, f, v := AllSessions(disk), Last(Yielding(disk)), VerdictOf(disk).value;
      var ss := LoadFile(f).sessions;
      && all != [] && v.file == f.day == all[|all| - 1].file
      && ss != [] && v.start == Strip(ss[|ss| - 1].start) && v.sample == MarksOf(Lines(f.content)).sample
  {
    OnlyYielding(disk);
    NewestDecides(Yielding(disk));
    VerdictShows(Yielding(disk));
  }

  lemma VerdictShows(part: Disk)
    requires part != [] && HasStart(part[|part| - 1]) && VerdictOf(part).Some?
    ensures var f, v := part[|part| - 1], VerdictOf(part).value;
      var ss := LoadFile(f).sessions;
      && ss != [] && v.file == f.day && v.start == Strip(ss[|ss| - 1].start)
      && v.sample == MarksOf(Lines(f.content)).sample
  {
    FileMatched(part[|part| - 1]);
  }

  /** A file of which every session was announced has a start marker if it has a session. */
  lemma PlainHasStart(f: File)
    requires Plain(LoadFile(f).sessions) && LoadFile(f).sessions != []
    ensures HasStart(f)
  {
    FileMatched(f);
    assert LoadFile(f).sessions[0] in LoadFile(f).sessions;
  }

  /** So they agree on every log a writer can leave. */
  lemma ReadersAgree(clock: int, es: seq<Event>)
    requires Runs(Start(clock), es)
    ensures var disk := After(Start(clock), es).disk;
      var told := Told(es).accounts;
      VerdictOf(disk).Some? <==> told != [] && !told[|told| - 1].clean
  {
    LogRoundTrip(clock, es);
    var disk := After(Start(clock), es).disk;
    PlainReadersAgree(disk);
    LastReport(AllSessions(disk));
  }

  lemma PlainReadersAgree(disk: Disk)
    requires AllPlain(disk)
    ensures ReadersAgreeOn(disk)
  {
    var part := Yielding(disk);
    if part != [] {
      assert Last(part) in disk;
      PlainHasStart(Last(part));
    }
    ReadersIff(disk);
  }

  lemma LastReport(ss: seq<Session>)
    ensures var r := Reports(ss);
      |r| == |ss| && (ss != [] ==> r[|r| - 1].clean == ss[|ss| - 1].clean)
  {
  }

  // ---------------------------------------------------------------- where they differ

  lemma FirstLine(line: string, content: string)
    requires '\n' !in line && content == line + "\n"
    ensures Whole(content) && Lines(content) == [line]
  {
    assert Lines("") == [] && "" + (line + "\n") == content;
    LinesAppend("", line);
  }

  lemma NextLine(before: string, lines: seq<string>, line: string, content: string)
    requires Whole(before) && Lines(before) == lines && '\n' !in line && content == before + line + "\n"
    ensures Whole(content) && Lines(content) == lines + [line]
  {
    assert content == before + (line + "\n");
    LinesAppend(before, line);
  }

  lemma ThreeLines(a: string, b: string, c: string, content: string)
    requires '\n' !in a && '\n' !in b && '\n' !in c && content == a + "\n" + b + "\n" + c + "\n"
    ensures Lines(content) == [a, b, c]
  {
    FirstLine(a, a + "\n");
    NextLine(a + "\n", [a], b, a + "\n" + b + "\n");
    NextLine(a + "\n" + b + "\n", [a] + [b], c, content);
  }

  lemma LoadSnoc(lines: seq<string>, line: string, file: int)
    ensures Load(lines + [line], file) == ReadLine(Load(lines, file), line, file)
    ensures MarksOf(lines + [line]) == MarkLine(MarksOf(lines), line)
  {
    assert (lines + [line])[..|lines|] == lines;
  }

  lemma HeaderOnly(h: string, file: int)
    requires "ts," <= h
    ensures Load([h], file) == Scan(Some(Split(h, ',')), []) && MarksOf([h]) == Marks(None, None, None)
  {
    assert h[0] == 't';
    LoadSnoc([], h, file);
    assert [] + [h] == [h];
  }

  predicate IsRow(line: string) {
    line != "" && !("#" <= line) && !("ts," <= line)
  }

  /** A session with one row, under the header of its file. */
  function OneRow(start: string, h: string, row: string, file: int, implicit: bool): Session {
    Session(start, [Segment(Some(Split(h, ',')), [Split(row, ',')])], false, None, file, false, 0, implicit)
  }

  predicate AsWide(h: string, row: string) {
    |Split(row, ',')| == |Split(h, ',')|
  }

  lemma AddsOneRow(start: string, h: string, row: string, file: int, implicit: bool)
    requires AsWide(h, row)
    ensures AddRow(Opened(start, Some(Split(h, ',')), file, implicit), Split(row, ',')) == OneRow(start, h, row, file, implicit)
  {
    var seg := Segment(Some(Split(h, ',')), []);
    assert [seg][..0] == [] && seg.rows + [Split(row, ',')] == [Split(row, ',')];
  }

  /** A day that starts a session and ends without stopping it. */
  lemma OpenDay(h: string, boot: string, row: string, day: int)
    requires "ts," <= h && "#BOOT_START" <= boot && IsRow(row) && AsWide(h, row)
    ensures var m := MarksOf([h] + [boot] + [row]); m.start.Some? && m.stop.None?
    ensures Load([h] + [boot] + [row], day).sessions == [OneRow(boot, h, row, day, false)]
  {
    DayStart(h, boot, day);
    LoadSnoc([h] + [boot], row, day);
    assert row[0] != '#';
    ReadsRow(Load([h] + [boot], day), row, day);
    AddsOneRow(boot, h, row, day, false);
  }

  lemma DayStart(h: string, boot: string, day: int)
    requires "ts," <= h && "#BOOT_START" <= boot
    ensures Load([h] + [boot], day).sessions == [Opened(boot, Some(Split(h, ',')), day, false)]
    ensures MarksOf([h] + [boot]) == Marks(Some(Strip(boot)), None, None)
  {
    HeaderOnly(h, day);
    LoadSnoc([h], boot, day);
    assert boot[0] == '#' && boot[1] == 'B';
  }

  /** The next day of a writer without resumed lines, stopped cleanly. */
  lemma ClosedDay(h: string, row: string, stop: string, day: int)
    requires "ts," <= h && IsRow(row) && "#CLEAN_STOP" <= stop && AsWide(h, row)
    ensures MarksOf([h] + [row] + [stop]).start.None?
    ensures Load([h] + [row] + [stop], day).sessions
         == [OneRow(IMPLICIT_START, h, row, day, true).(clean := true, stop := Some(stop))]
  {
    HeaderOnly(h, day);
    LoadSnoc([h], row, day);
    LoadSnoc([h] + [row], stop, day);
    assert stop[0] == '#' && stop[1] == 'C' && row[0] != '#';
    AddsOneRow(IMPLICIT_START, h, row, day, true);
    ReadsStop(Load([h] + [row], day), stop, day);
  }

  lemma OneRowReports(start: string, h: string, row: string, file: int, implicit: bool)
    ensures Flatten(OneRow(start, h, row, file, implicit).segments) == [Sample(Some(Split(h, ',')), Split(row, ','))]
  {
    var seg := Segment(Some(Split(h, ',')), [Split(row, ',')]);
    assert [seg][..0] == [] && Flatten([]) == [];
    assert Flatten([seg]) == Flatten([]) + RowsOf(seg);
  }

  /** An announced session of one day and an unannounced half of the next are joined. */
  lemma DaysJoin(first: File, second: File, s: Session, t: Session)
    requires LoadFile(first).sessions == [s] && LoadFile(second).sessions == [t] && t.implicit
    ensures Reports(AllSessions([first, second]))
         == [Account(s.start, Flatten(s.segments) + Flatten(t.segments), t.clean)]
  {
    assert [first, second][..1] == [first] && [first][..0] == [] && AllSessions([]) == [];
    assert [s][..0] == [] && [t][..0] == [];
    assert AllSessions([first]) == MergeOne(Merge([], []), s) == [s];
    assert AllSessions([first, second]) == MergeOne(Merge([s], []), t) == MergeOne([s], t);
    MergeOneReports([s], t);
  }

  lemma DaysApart(first: File, second: File)
    requires var m := MarksOf(Lines(first.content)); m.start.Some? && m.stop.None?
    requires MarksOf(Lines(second.content)).start.None?
    ensures VerdictOf([first, second]).Some? && VerdictOf([first, second]).value.file == first.day
  {
    var disk := [first, second];
    assert disk[..1] == [first] && [first][..0] == [];
    assert VerdictOf(disk) == VerdictOf([first]);
  }

  /** A session split at midnight before the markers existed, and stopped cleanly the next
      day: the post-mortem joins the halves, all rows in order under their header, and finds
      one session with a clean end; the start-up verdict passes over the second day and
      calls it dead. */
  lemma LegacyMidnight(h: string, boot: string, row: string, late: string, stop: string, first: File, second: File)
    requires "ts," <= h && "#BOOT_START" <= boot && IsRow(row) && IsRow(late) && "#CLEAN_STOP" <= stop
    requires '\n' !in h && '\n' !in boot && '\n' !in row && '\n' !in late && '\n' !in stop
    requires AsWide(h, row) && AsWide(h, late)
    requires first.content == h + "\n" + boot + "\n" + row + "\n"
    requires second.content == h + "\n" + late + "\n" + stop + "\n"
    ensures var header := Some(Split(h, ','));
      Reports(AllSessions([first, second]))
      == [Account(boot, [Sample(header, Split(row, ','))] + [Sample(header, Split(late, ','))], true)]
    ensures VerdictOf([first, second]).Some? && VerdictOf([first, second]).value.file == first.day
  {
    ThreeLines(h, boot, row, first.content);
    ThreeLines(h, late, stop, second.content);
    assert [h] + [boot] + [row] == [h, boot, row] && [h] + [late] + [stop] == [h, late, stop];
    OpenDay(h, boot, row, first.day);
    ClosedDay(h, late, stop, second.day);
    OneRowReports(boot, h, row, first.day, false);
    OneRowReports(IMPLICIT_START, h, late, second.day, true);
    DaysJoin(first, second, OneRow(boot, h, row, first.day, false),
             OneRow(IMPLICIT_START, h, late, second.day, true).(clean := true, stop := Some(stop)));
    DaysApart(first, second);
  }

  lemma TwoFields(line: string, a: string, b: string)
    requires ',' !in a && ',' !in b && line == a + [','] + b
    ensures |Split(line, ',')| == 2
  {
    SplitConcat(a, b, ',');
    SplitPlain(a, ',');
    SplitPlain(b, ',');
  }

  /** For instance. */
  lemma MidnightExample(h: string, row: string, late: string, first: File, second: File)
    requires h == "ts,a" && row == "1,2" && late == "3,4"
    requires first == File(1, h + "\n" + "#BOOT_START x" + "\n" + row + "\n")
    requires second == File(2, h + "\n" + late + "\n" + "#CLEAN_STOP y" + "\n")
    ensures !ReadersAgreeOn([first, second])
  {
    assert row[0] == '1' && late[0] == '3';
    TwoFields(h, "ts", "a");
    TwoFields(row, "1", "2");
    TwoFields(late, "3", "4");
    LegacyMidnight(h, "#BOOT_START x", row, late, "#CLEAN_STOP y", first, second);
    LastReport(AllSessions([first, second]));
  }
}
