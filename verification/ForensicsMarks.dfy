/**
 Two things the writer keeps in every history: a session that midnight splits is marked on
 both sides of the cut, and no header is repeated.
 */
module ForensicsMarks {
  import opened Common
  import opened LogText
  import opened ForensicsSpec
  import opened ForensicsTheorems
  import opened ForensicsRoundTrip

  /** The file's last session ends with a roll-over marker. */
  predicate RolledOver(f: File) {
    var ss := LoadFile(f).sessions;
    ss != [] && ss[|ss| - 1].rolled
  }

  /** The file's first session resumes one of the day before. */
  predicate Resumes(f: File) {
    var ss := LoadFile(f).sessions;
    ss != [] && Contains(ss[0].start, RESUMED_MARK)
  }

  predicate Marked(disk: Disk) {
    forall i | 0 < i < |disk| :: Resumes(disk[i]) ==> RolledOver(disk[i - 1])
  }

  lemma MarkedSnoc(older: Disk, f: File)
    ensures Marked(older + [f]) <==> Marked(older) && (older != [] && Resumes(f) ==> RolledOver(Last(older)))
  {
    var d := older + [f];
    if Marked(d) {
      forall i | 0 < i < |older| && Resumes(older[i]) ensures RolledOver(older[i - 1]) {
        assert d[i] == older[i] && d[i - 1] == older[i - 1];
      }
      if older != [] {
        assert d[|older|] == f && d[|older| - 1] == Last(older);
      }
    }
  }

  lemma FirstStays(sc: Scan, line: string, file: int)
    requires sc.sessions != []
    ensures var after := ReadLine(sc, line, file).sessions; after != [] && after[0].start == sc.sessions[0].start
  {
  }

  lemma OlderAndToday(disk: Disk, day: int)
    requires Sorted(disk) && NotAfter(disk, day)
    ensures Scanned(disk, day).sessions != [] ==> disk == Older(disk, day) + [Today(disk, day)]
    ensures Marked(disk) ==> Marked(Older(disk, day))
  {
    if disk != [] && Last(disk).day == day {
      assert disk == disk[..|disk| - 1] + [Last(disk)];
      MarkedSnoc(disk[..|disk| - 1], Last(disk));
    } else {
      assert LoadFile(File(day, "")).sessions == [];
    }
  }

  /** A line keeps the marks unless it opens a file by resuming a session that was not
      rolled over. */
  lemma LineKeepsMarks(disk: Disk, day: int, line: string)
    requires Sorted(disk) && NotAfter(disk, day) && AllWhole(disk) && '\n' !in line && Marked(disk)
    requires Scanned(disk, day).sessions == [] && Older(disk, day) != [] && !RolledOver(Last(Older(disk, day))) ==>
      var after := ReadLine(Scanned(disk, day), line, day).sessions; after == [] || !Contains(after[0].start, RESUMED_MARK)
    ensures Marked(Append(disk, day, line + "\n"))
  {
    var d, older := Append(disk, day, line + "\n"), Older(disk, day);
    LineLands(disk, day, line);
    AppendToday(disk, day, line + "\n");
    OlderAndToday(disk, day);
    var f := Today(d, day);
    assert d == older + [f];
    if Scanned(disk, day).sessions != [] {
      FirstStays(Scanned(disk, day), line, day);
      MarkedSnoc(older, Today(disk, day));
    }
    MarkedSnoc(older, f);
  }

  lemma TouchKeepsMarks(disk: Disk, day: int)
    requires Sorted(disk) && NotAfter(disk, day) && Marked(disk)
    ensures Marked(Append(disk, day, ""))
  {
    AppendToday(disk, day, "");
    var f := Today(disk, day);
    assert f.content + "" == f.content;
    if disk != [] && Last(disk).day == day {
      assert Append(disk, day, "") == disk;
    } else {
      assert LoadFile(File(day, "")).sessions == [];
      MarkedSnoc(disk, File(day, ""));
    }
  }

  // ---------------------------------------------------------------- headers

  /** The first line is a header, and no header line says what the one before it said. */
  predicate Differ(lines: seq<string>) {
    lines == []
    || var before, line := lines[..|lines| - 1], lines[|lines| - 1];
       Differ(before) && IsNews(before, line)
  }

  predicate IsNews(before: seq<string>, line: string) {
    if "ts," <= line then LastHeader(before) != Some(line) else before != []
  }

  predicate HeadersDiffer(disk: Disk) {
    forall f | f in disk :: Differ(Lines(f.content))
  }

  lemma DifferSnoc(lines: seq<string>, line: string)
    ensures Differ(lines + [line]) <==> Differ(lines) && IsNews(lines, line)
  {
    assert (lines + [line])[..|lines|] == lines;
  }

  predicate News(disk: Disk, day: int, line: string) {
    IsNews(Lines(Today(disk, day).content), line)
  }

  lemma HasLines(disk: Disk, day: int)
    ensures Scanned(disk, day).header.Some? || Scanned(disk, day).sessions != [] ==> Lines(Today(disk, day).content) != []
  {
  }

  lemma TodayDiffers(disk: Disk, day: int)
    requires HeadersDiffer(disk)
    ensures Differ(Lines(Today(disk, day).content))
  {
    assert Lines("") == [];
  }

  lemma LineKeepsHeaders(disk: Disk, day: int, line: string)
    requires Sorted(disk) && NotAfter(disk, day) && AllWhole(disk) && '\n' !in line
    requires HeadersDiffer(disk) && News(disk, day, line)
    ensures HeadersDiffer(Append(disk, day, line + "\n"))
  {
    var f := Today(disk, day);
    TodayDiffers(disk, day);
    AppendToday(disk, day, line + "\n");
    LinesAppend(f.content, line);
    DifferSnoc(Lines(f.content), line);
    forall g | g in Append(disk, day, line + "\n") ensures Differ(Lines(g.content)) {
      if g in Older(disk, day) {
        assert g in disk;
      }
    }
  }

  predicate Neat(disk: Disk) {
    Marked(disk) && HeadersDiffer(disk)
  }

  lemma LineKeepsNeat(disk: Disk, day: int, line: string)
    requires Sorted(disk) && NotAfter(disk, day) && AllWhole(disk) && '\n' !in line && Neat(disk) && News(disk, day, line)
    requires Scanned(disk, day).sessions == [] && Older(disk, day) != [] && !RolledOver(Last(Older(disk, day))) ==>
      var after := ReadLine(Scanned(disk, day), line, day).sessions; after == [] || !Contains(after[0].start, RESUMED_MARK)
    ensures Neat(Append(disk, day, line + "\n"))
  {
    LineKeepsMarks(disk, day, line);
    LineKeepsHeaders(disk, day, line);
  }

  lemma TouchKeepsNeat(disk: Disk, day: int)
    requires Sorted(disk) && NotAfter(disk, day) && Neat(disk)
    ensures Neat(Append(disk, day, ""))
  {
    TouchKeepsMarks(disk, day);
    TodayDiffers(disk, day);
    AppendToday(disk, day, "");
    var f := Today(disk, day);
    assert f.content + "" == f.content;
    forall g | g in Append(disk, day, "") ensures Differ(Lines(g.content)) {
      if g in Older(disk, day) {
        assert g in disk;
      }
    }
  }

  // ---------------------------------------------------------------- a write

  ghost function Marking(): Disk -> bool {
    disk => Neat(disk)
  }

  lemma OneOk(disk: Disk, p: Put)
    requires Neat(Append(disk, p.day, p.text))
    ensures AllOk(disk, [p], Marking())
  {
    assert AllOk(Append(disk, p.day, p.text), [p][1..], Marking());
  }

  /** Where the closing marker of an open writer goes. */
  predicate ClosesLast(w: Writer, disk: Disk, today: int) {
    && disk != [] && w.day == Some(Last(disk).day) && Last(disk).day < today
    && Scanned(disk, Last(disk).day).sessions != []
  }

  lemma WriterCloses(w: Writer, disk: Disk, today: int, accounts: seq<Account>)
    requires Reads(disk, today, accounts) && Rolls(w, today) && (JustMade(w) || Fits(w, disk, accounts))
    ensures Sorted(disk) && AllWhole(disk) && NotAfter(disk, today)
    ensures w.open ==> ClosesLast(w, disk, today)
  {
  }

  lemma ClosingMarks(w: Writer, disk: Disk, today: int, stamp: string)
    requires Sorted(disk) && AllWhole(disk) && '\n' !in stamp && Neat(disk)
    requires w.open ==> ClosesLast(w, disk, today)
    ensures var d := Apply(disk, Closing(w, stamp));
      && AllOk(disk, Closing(w, stamp), Marking()) && Neat(d)
      && (w.open ==> d != [] && Last(d).day < today && RolledOver(Last(d)))
  {
    if w.open {
      assert "#ROLLOVER" <= RolloverLine(stamp);
      ClosingPut(disk, Last(disk).day, RolloverLine(stamp));
      assert Closing(w, stamp) == [Put(Last(disk).day, RolloverLine(stamp) + "\n")];
    }
  }

  lemma ClosingPut(disk: Disk, day: int, line: string)
    requires Sorted(disk) && NotAfter(disk, day) && AllWhole(disk) && '\n' !in line && "#ROLLOVER" <= line
    requires Neat(disk) && Scanned(disk, day).sessions != []
    ensures var puts := [Put(day, line + "\n")];
      var d := Apply(disk, puts);
      AllOk(disk, puts, Marking()) && Neat(d) && d != [] && Last(d).day == day && RolledOver(Last(d))
  {
    var p := Put(day, line + "\n");
    RolloverMarks(disk, day, line);
    ApplyOne(disk, p);
    OneOk(disk, p);
  }

  lemma RolloverMarks(disk: Disk, day: int, line: string)
    requires Sorted(disk) && NotAfter(disk, day) && AllWhole(disk) && '\n' !in line && "#ROLLOVER" <= line
    requires Neat(disk) && Scanned(disk, day).sessions != []
    ensures var d := Append(disk, day, line + "\n");
      Neat(d) && d != [] && Last(d).day == day && RolledOver(Last(d))
  {
    assert line[0] == '#';
    HasLines(disk, day);
    LineLands(disk, day, line);
    ReadsRollover(Scanned(disk, day), line, day);
    LineKeepsNeat(disk, day, line);
  }

  lemma HeadingMarks(w: Writer, disk: Disk, now: Disk, today: int, accounts: seq<Account>)
    requires Reads(now, today, accounts) && now != [] && Last(now).day == today && Neat(now)
    requires GoodHeader(w.header) && ContentOf(disk, today) == Today(now, today).content
    ensures var d := Apply(now, Heading(w, disk, today));
      && AllOk(now, Heading(w, disk, today), Marking()) && Neat(d) && Older(d, today) == Older(now, today)
  {
    if NeedsHeader(ContentOf(disk, today), w.header) {
      var line := Join(w.header, ',');
      var p := Put(today, line + "\n");
      JoinFree(w.header, ',', '\n');
      assert "ts," <= line && line[0] == 't';
      assert Lines("") == [];
      LineKeepsNeat(now, today, line);
      LineLands(now, today, line);
      ApplyOne(now, p);
      OneOk(now, p);
    }
  }

  lemma ResumingMarks(w: Writer, disk: Disk, today: int, accounts: seq<Account>)
    requires Reads(disk, today, accounts) && Neat(disk)
    requires w.session.Some? ==> GoodBoot(w.session.value) && Older(disk, today) != [] && RolledOver(Last(Older(disk, today)))
    requires Scanned(disk, today).header.Some?
    ensures AllOk(disk, Resuming(w, today), Marking()) && Neat(Apply(disk, Resuming(w, today)))
  {
    if w.session.Some? {
      var line := ResumedLine(w.session.value);
      var p := Put(today, line + "\n");
      ResumedIsBoot(w.session.value);
      assert line[0] == '#';
      HasLines(disk, today);
      LineKeepsNeat(disk, today, line);
      ApplyOne(disk, p);
      OneOk(disk, p);
    }
  }

  lemma RollMarks(w: Writer, disk: Disk, today: int, stamp: string, accounts: seq<Account>)
    requires Reads(disk, today, accounts) && '\n' !in stamp && Rolls(w, today) && Neat(disk)
    requires JustMade(w) || Fits(w, disk, accounts)
    ensures AllOk(disk, Roll(w, disk, today, stamp), Marking()) && Neat(Apply(disk, Roll(w, disk, today, stamp)))
  {
    var c, t := Closing(w, stamp), [Put(today, "")];
    var h, r := Heading(w, disk, today), Resuming(w, today);
    ClosingQuiet(w, disk, today, stamp, accounts);
    WriterCloses(w, disk, today, accounts);
    ClosingMarks(w, disk, today, stamp);
    var d1 := Apply(disk, c);
    Touches(d1, today, accounts);
    TouchKeepsNeat(d1, today);
    AppendToday(d1, today, "");
    ApplyOne(d1, t[0]);
    OneOk(d1, t[0]);
    OkConcat(disk, c, t, Marking());
    ApplyConcat(disk, c, t);
    var d2 := Apply(d1, t);
    assert w.open ==> Older(d2, today) == d1;
    AppendToday(disk, today, "");
    HeadingQuiet(w, disk, d2, today, accounts);
    HeadingMarks(w, disk, d2, today, accounts);
    OkConcat(disk, c + t, h, Marking());
    ApplyConcat(disk, c + t, h);
    var d3 := Apply(d2, h);
    ResumingMarks(w, d3, today, accounts);
    OkConcat(disk, c + t + h, r, Marking());
    ApplyConcat(disk, c + t + h, r);
  }

  lemma RollingMarks(w: Writer, disk: Disk, today: int, stamp: string, accounts: seq<Account>)
    requires Reads(disk, today, accounts) && '\n' !in stamp && Neat(disk)
    requires JustMade(w) || Fits(w, disk, accounts)
    ensures AllOk(disk, Rolling(w, disk, today, stamp), Marking()) && Neat(Rolled(w, disk, today, stamp))
  {
    if Rolls(w, today) {
      RollMarks(w, disk, today, stamp, accounts);
    }
  }

  /** What each call writes cannot open a file by resuming a session. */
  lemma TextMarks(w: World, e: Event, d: Disk, accounts: seq<Account>)
    requires Legal(w, e) && e.Wrote? && Reads(d, e.day, accounts) && Neat(d)
    requires var writer := WriterFor(w, e.call).value;
      Ready(writer, d, e.day) && (!e.call.Boot? ==> writer.session.Some? && GoodHeader(writer.header))
    ensures Neat(Append(d, e.day, TextOf(e.call) + "\n"))
  {
    HasLines(d, e.day);
    match e.call
    case Boot(_, line) => BootMarks(d, e.day, line);
    case Row(fields) =>
      RowLine(fields, w.live.value.header);
      LineKeepsNeat(d, e.day, Join(fields, ','));
    case Stop(line) =>
      assert line[0] == '#';
      LineKeepsNeat(d, e.day, line);
  }

  lemma BootMarks(d: Disk, day: int, line: string)
    requires Sorted(d) && NotAfter(d, day) && AllWhole(d) && Neat(d) && GoodBoot(line)
    requires Lines(Today(d, day).content) != []
    ensures Neat(Append(d, day, line + "\n"))
  {
    assert line[0] == '#' && line[1] == 'B';
    LineKeepsNeat(d, day, line);
  }

  /** The appends before the text of a call, and how many of all of them reach the disk. */
  lemma StepAsPuts(w: World, e: Event, writer: Writer) returns (before: seq<Put>, text: Put, k: nat)
    requires e.Wrote? && WriterFor(w, e.call) == Some(writer)
    ensures before == Rolling(writer, w.disk, e.day, e.stamp) && text == Put(e.day, TextOf(e.call) + "\n")
    ensures k <= |before| + 1 && Step(w, e).disk == Apply(w.disk, (before + [text])[..k])
  {
    before, text := Rolling(writer, w.disk, e.day, e.stamp), Put(e.day, TextOf(e.call) + "\n");
    var n := |before| + 1;
    k := if e.lost <= n then n - e.lost else 0;
  }

  lemma TextKeepsNeat(w: World, t: Telling, e: Event, writer: Writer)
    requires Kept(w, t) && Legal(w, e) && e.Wrote? && Neat(w.disk) && WriterFor(w, e.call) == Some(writer)
    ensures var before := Rolling(writer, w.disk, e.day, e.stamp);
      && AllOk(w.disk, before, Marking())
      && Neat(Append(Apply(w.disk, before), e.day, TextOf(e.call) + "\n"))
  {
    WriterIsReady(w, t, e);
    RollingMarks(writer, w.disk, e.day, e.stamp, t.accounts);
    WholeWrite(writer, w.disk, e.day, e.stamp, TextOf(e.call), t.accounts);
    TextMarks(w, e, Rolled(writer, w.disk, e.day, e.stamp), t.accounts);
  }

  /** Appends that keep the directory neat, cut anywhere. */
  lemma CutKeepsNeat(disk: Disk, before: seq<Put>, text: Put, k: nat)
    requires Neat(disk) && AllOk(disk, before, Marking()) && k <= |before| + 1
    requires Neat(Append(Apply(disk, before), text.day, text.text))
    ensures Neat(Apply(disk, (before + [text])[..k]))
  {
    if k <= |before| {
      assert (before + [text])[..k] == before[..k];
      OkPrefix(disk, before, Marking(), k);
    } else {
      assert (before + [text])[..k] == before + [text];
      ApplyConcat(disk, before, [text]);
      ApplyOne(Apply(disk, before), text);
    }
  }

  lemma WriterIsThere(w: World, e: Event)
    requires Legal(w, e) && e.Wrote?
    ensures WriterFor(w, e.call).Some?
  {
  }

  lemma StepMarks(w: World, t: Telling, e: Event)
    requires Kept(w, t) && Legal(w, e) && Neat(w.disk)
    ensures Neat(Step(w, e).disk)
  {
    if e.Wrote? {
      WriterIsThere(w, e);
      var writer := WriterFor(w, e.call).value;
      TextKeepsNeat(w, t, e, writer);
      var before, text, k := StepAsPuts(w, e, writer);
      CutKeepsNeat(w.disk, before, text, k);
    }
  }

  lemma {:induction false} RunMarks(clock: int, es: seq<Event>)
    requires Runs(Start(clock), es)
    ensures Neat(After(Start(clock), es).disk)
    decreases |es|
  {
    if es != [] {
      var before := es[..|es| - 1];
      RunMarks(clock, before);
      RunKeeps(clock, before);
      StepMarks(After(Start(clock), before), Told(before), es[|es| - 1]);
    }
  }

  /** In every history: where a file opens by resuming a session, the file before it ends
      that session with a roll-over marker, so that the day's end is no death. */
  lemma SplitsAreMarked(clock: int, es: seq<Event>, i: nat)
    requires Runs(Start(clock), es)
    requires var disk := After(Start(clock), es).disk; 0 < i < |disk| && Resumes(disk[i])
    ensures var ss := LoadFile(After(Start(clock), es).disk[i - 1]).sessions; ss != [] && ss[|ss| - 1].rolled
  {
    RunMarks(clock, es);
  }

  lemma {:induction false} FirstIsHeader(lines: seq<string>)
    requires Differ(lines) && lines != []
    ensures "ts," <= lines[0]
    decreases |lines|
  {
    if |lines| > 1 {
      FirstIsHeader(lines[..|lines| - 1]);
    }
  }

  /** And every file with a line begins with a header, and repeats none: a header line says
      something else than the one before. */
  lemma HeadersAreNews(clock: int, es: seq<Event>, f: File)
    requires Runs(Start(clock), es) && f in After(Start(clock), es).disk
    ensures var lines := Lines(f.content);
      && (lines != [] ==> "ts," <= lines[0])
      && forall k | 0 <= k < |lines| && "ts," <= lines[k] :: LastHeader(lines[..k]) != Some(lines[k])
  {
    RunMarks(clock, es);
    var lines := Lines(f.content);
    if lines != [] {
      FirstIsHeader(lines);
    }
    forall k | 0 <= k < |lines| && "ts," <= lines[k] ensures LastHeader(lines[..k]) != Some(lines[k]) {
      EachIsNews(lines, k);
    }
  }

  lemma {:induction false} EachIsNews(lines: seq<string>, k: nat)
    requires Differ(lines) && k < |lines|
    ensures IsNews(lines[..k], lines[k])
    decreases |lines|
  {
    if k < |lines| - 1 {
      EachIsNews(lines[..|lines| - 1], k);
      assert lines[..|lines| - 1][..k] == lines[..k];
    }
  }
}
