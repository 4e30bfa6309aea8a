/** The log writer of ops/node_forensics.py and the readers of both ops scripts. */
module Forensics {
  import opened Common
  import opened LogText
  import opened ForensicsSpec

  lemma Snoc<T>(ss: seq<T>, i: nat)
    requires i < |ss|
    ensures ss[..i + 1][..i] == ss[..i] && ss[..i + 1][i] == ss[i]
  {
  }

  lemma {:induction false} OtherDay(disk: Disk, day: int, text: string, other: int)
    requires day != other
    ensures ContentOf(Append(disk, day, text), other) == ContentOf(disk, other)
    decreases |disk|
  {
    if disk == [] || day < disk[0].day {
      assert Append(disk, day, text)[1..] == disk;
    } else if disk[0].day != day {
      OtherDay(disk[1..], day, text, other);
    }
  }

  lemma {:induction false} ApplyOnce(disk: Disk, puts: seq<Put>, p: Put)
    ensures Apply(disk, puts + [p]) == Append(Apply(disk, puts), p.day, p.text)
    decreases |puts|
  {
    if puts == [] {
      assert [p][1..] == [] && puts + [p] == [p];
      assert Apply(Append(disk, p.day, p.text), []) == Append(disk, p.day, p.text);
    } else {
      assert (puts + [p])[1..] == puts[1..] + [p];
      ApplyOnce(Append(disk, puts[0].day, puts[0].text), puts[1..], p);
    }
  }

  class LogDir {
    var files: Disk

    constructor ()
      ensures files == []
    {
      files := [];
    }
  }

  /** Writer; `open` stands for `fh is not None`, and the open file is that of `day`. */
  class CsvWriter {
    const dir: LogDir
    const header: Fields
    var day: Option<int>
    var open: bool
    var sessionLine: Option<string>

    function View(): Writer
      reads this
    {
      Writer(header, day, open, sessionLine)
    }

    constructor (dir: LogDir, header: Fields)
      ensures View() == Writer(header, None, false, None) && this.dir == dir
    {
      this.dir := dir;
      this.header := header;
      day := None;
      open := false;
      sessionLine := None;
    }

    method Raw(text: string)
      requires day.Some?
      modifies dir
      ensures dir.files == Append(old(dir.files), day.value, text + "\n")
    {
      dir.files := Append(dir.files, day.value, text + "\n");
    }

    method HeaderMatches(content: string) returns (matches: bool)
      ensures matches <==> LastHeader(Lines(content)) == Some(Join(header, ','))
    {
      var lines := Lines(content);
      var last: Option<string> := None;
      var i := 0;
      while i < |lines|
        invariant 0 <= i <= |lines|
        invariant last == LastHeader(lines[..i])
      {
        Snoc(lines, i);
        if "ts," <= lines[i] {
          last := Some(lines[i]);
        }
        i := i + 1;
      }
      assert lines[..i] == lines;
      matches := last == Some(Join(header, ','));
    }

    method RollOver(today: int, stamp: string)
      requires Rolls(View(), today) && (open ==> day.Some?)
      modifies this, dir
      ensures dir.files == Apply(old(dir.files), Roll(old(View()), old(dir.files), today, stamp))
      ensures View() == old(View()).(day := Some(today), open := true)
    {
      ghost var disk, w := dir.files, View();
      ghost var done: seq<Put> := [];
      if open {
        OtherDay(dir.files, day.value, RolloverLine(stamp) + "\n", today);
        ApplyOnce(disk, done, Put(day.value, RolloverLine(stamp) + "\n"));
        done := done + [Put(day.value, RolloverLine(stamp) + "\n")];
        Raw(RolloverLine(stamp));
        open := false;
      }
      assert done == Closing(w, stamp);
      var content := ContentOf(dir.files, today);
      var isNew := content == "";
      var matches := HeaderMatches(content);
      ApplyOnce(disk, done, Put(today, ""));
      done := done + [Put(today, "")];
      dir.files := Append(dir.files, today, "");
      open := true;
      if isNew || !matches {
        ApplyOnce(disk, done, Put(today, Join(header, ',') + "\n"));
        done := done + [Put(today, Join(header, ',') + "\n")];
        dir.files := Append(dir.files, today, Join(header, ',') + "\n");
      }
      day := Some(today);
      assert done == Closing(w, stamp) + [Put(today, "")] + Heading(w, disk, today);
      if sessionLine.Some? {
        ApplyOnce(disk, done, Put(today, ResumedLine(sessionLine.value) + "\n"));
        done := done + [Put(today, ResumedLine(sessionLine.value) + "\n")];
        Raw(ResumedLine(sessionLine.value));
      }
      assert done == Roll(w, disk, today, stamp);
    }

    method Write(today: int, stamp: string, text: string)
      requires open ==> day.Some?
      modifies this, dir
      ensures dir.files == Apply(old(dir.files), Puts(old(View()), old(dir.files), today, stamp, text))
      ensures View() == old(View()).(day := Some(today), open := true)
    {
      ghost var disk, w := dir.files, View();
      ghost var done: seq<Put> := [];
      if !open || day != Some(today) {
        done := Roll(w, disk, today, stamp);
        RollOver(today, stamp);
      }
      ApplyOnce(disk, done, Put(today, text + "\n"));
      Raw(text);
    }

    method StartSession(today: int, stamp: string, line: string)
      requires open ==> day.Some?
      modifies this, dir
      ensures dir.files == Apply(old(dir.files), Puts(old(View()), old(dir.files), today, stamp, line))
      ensures View() == old(View()).(day := Some(today), open := true, session := Some(line))
    {
      Write(today, stamp, line);
      sessionLine := Some(line);
    }

    method Close()
      modifies this
      ensures View() == old(View()).(open := false)
    {
      open := false;
    }
  }

  // ---------------------------------------------------------------- readers

  /** load_sessions: the sessions of one file. */
  method LoadSessions(f: File) returns (sessions: seq<Session>)
    ensures sessions == LoadFile(f).sessions
  {
    var lines := Lines(f.content);
    var header: Option<Fields> := None;
    sessions := [];
    var i := 0;
    while i < |lines|
      invariant 0 <= i <= |lines|
      invariant Scan(header, sessions) == Load(lines[..i], f.day)
    {
      Snoc(lines, i);
      header, sessions := OneLine(header, sessions, lines[i], f.day);
      i := i + 1;
    }
    assert lines[..i] == lines;
  }

  /** The body of its loop. */
  method OneLine(header: Option<Fields>, sessions: seq<Session>, line: string, file: int)
    returns (header': Option<Fields>, sessions': seq<Session>)
    ensures Scan(header', sessions') == ReadLine(Scan(header, sessions), line, file)
  {
    header', sessions' := header, sessions;
    if line == "" { return; }
    if "ts," <= line {
      header' := Some(Split(line, ','));
      if sessions != [] {
        var current := sessions[|sessions| - 1];
        current := current.(segments := current.segments + [Segment(header', [])]);
        sessions' := UpdateLast(sessions, current);
      }
    } else if "#BOOT_START" <= line {
      sessions' := sessions + [Opened(line, header, file, false)];
    } else if "#CLEAN_STOP" <= line {
      if sessions != [] {
        var current := sessions[|sessions| - 1].(clean := true);
        sessions' := UpdateLast(sessions, current.(stop := Some(line)));
      }
    } else if "#ROLLOVER" <= line {
      if sessions != [] {
        sessions' := UpdateLast(sessions, sessions[|sessions| - 1].(rolled := true));
      }
    } else {
      if sessions == [] {
        sessions' := [Opened(IMPLICIT_START, header, file, true)];
      }
      var current := sessions'[|sessions'| - 1];
      sessions' := UpdateLast(sessions', AddRow(current, Split(line, ',')));
    }
  }

  /** The loop over the sessions of one file. */
  method MergeFile(before: seq<Session>, sessions: seq<Session>) returns (found: seq<Session>)
    ensures found == Merge(before, sessions)
  {
    found := before;
    var j := 0;
    while j < |sessions|
      invariant 0 <= j <= |sessions|
      invariant found == Merge(before, sessions[..j])
    {
      Snoc(sessions, j);
      var s := sessions[j];
      if found != [] && Continues(s) {
        var prev := found[|found| - 1];
        prev := prev.(segments := prev.segments + s.segments, clean := s.clean, file := s.file);
        found := UpdateLast(found, prev);
      } else {
        found := found + [s];
      }
      j := j + 1;
    }
    assert sessions[..j] == sessions;
  }

  lemma AllNext(files: Disk, i: nat)
    requires i < |files|
    ensures AllSessions(files[..i + 1]) == Merge(AllSessions(files[..i]), LoadFile(files[i]).sessions)
  {
    Snoc(files, i);
  }

  /** all_sessions: files in name order, continuations joined to the session before. */
  method AllSessionsOf(dir: LogDir) returns (found: seq<Session>)
    ensures found == AllSessions(dir.files)
  {
    var files := dir.files;
    found := [];
    var i := 0;
    while i < |files|
      invariant 0 <= i <= |files|
      invariant found == AllSessions(files[..i])
    {
      var sessions := LoadSessions(files[i]);
      AllNext(files, i);
      found := MergeFile(found, sessions);
      i := i + 1;
    }
    assert files[..i] == files;
  }

  /** The scan of one file in previous_session_verdict. */
  method ScanMarks(f: File) returns (m: Marks)
    ensures m == MarksOf(Lines(f.content))
  {
    var lines := Lines(f.content);
    var start: Option<string> := None;
    var stop: Option<string> := None;
    var sample: Option<string> := None;
    var i := 0;
    while i < |lines|
      invariant 0 <= i <= |lines|
      invariant Marks(start, stop, sample) == MarksOf(lines[..i])
    {
      Snoc(lines, i);
      var line := lines[i];
      if "#BOOT_START" <= line {
        start, stop := Some(Strip(line)), None;
      } else if "#CLEAN_STOP" <= line {
        stop := Some(Strip(line));
      } else if !("#" <= line) && !("ts," <= line) {
        sample := Some(Strip(line));
      }
      i := i + 1;
    }
    assert lines[..i] == lines;
    m := Marks(start, stop, sample);
  }

  lemma VerdictSnoc(older: Disk, f: File)
    ensures var m := MarksOf(Lines(f.content));
      VerdictOf(older + [f]) ==
        if m.start.None? then VerdictOf(older)
        else if m.stop.None? then Some(Verdict(f.day, m.start.value, m.sample))
        else None
  {
    assert (older + [f])[..|older|] == older;
  }

  /** previous_session_verdict: newest file first. */
  method PreviousSessionVerdict(dir: LogDir) returns (verdict: Option<Verdict>)
    ensures verdict == VerdictOf(dir.files)
  {
    ghost var answer := VerdictOf(dir.files);
    var rest := dir.files;
    while rest != []
      invariant answer == VerdictOf(rest)
      decreases |rest|
    {
      var older, f := rest[..|rest| - 1], rest[|rest| - 1];
      assert rest == older + [f];
      VerdictSnoc(older, f);
      var m := ScanMarks(f);
      if m.start.Some? {
        return if m.stop.None? then Some(Verdict(f.day, m.start.value, m.sample)) else None;
      }
      rest := older;
    }
    verdict := None;
  }
}
