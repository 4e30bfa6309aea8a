/** What the post-mortem reader and the start-up verdict make of arbitrary lines. */
module ForensicsReader {
  import opened Common
  import opened LogText
  import opened ForensicsSpec
  import opened ForensicsTheorems

  // ---------------------------------------------------------------- rows

  /** A line the reader takes for a row. */
  predicate RowLine(line: string) {
    line != "" && !("ts," <= line) && !("#BOOT_START" <= line) && !("#CLEAN_STOP" <= line) && !("#ROLLOVER" <= line)
  }

  function CountRows(lines: seq<string>): nat {
    if lines == [] then 0 else CountRows(lines[..|lines| - 1]) + if RowLine(lines[|lines| - 1]) then 1 else 0
  }

  /** The rows of a session, kept or dropped. */
  function Weight(s: Session): nat {
    |Flatten(s.segments)| + s.skipped
  }

  function Weights(ss: seq<Session>): nat {
    if ss == [] then 0 else Weights(ss[..|ss| - 1]) + Weight(ss[|ss| - 1])
  }

  /** Every row kept is as wide as the header it stands under. */
  predicate Fitting(s: Session) {
    forall seg, row | seg in s.segments && row in seg.rows :: seg.header.Some? ==> |row| == |seg.header.value|
  }

  lemma WeightsSnoc(ss: seq<Session>, s: Session)
    ensures Weights(ss + [s]) == Weights(ss) + Weight(s)
  {
    assert (ss + [s])[..|ss|] == ss;
  }

  lemma WeightsUpdate(ss: seq<Session>, t: Session)
    requires ss != []
    ensures Weights(UpdateLast(ss, t)) + Weight(ss[|ss| - 1]) == Weights(ss) + Weight(t)
  {
    WeightsSnoc(ss[..|ss| - 1], t);
  }

  lemma AddRowWeighs(s: Session, fields: Fields)
    requires s.segments != [] && Fitting(s)
    ensures Weight(AddRow(s, fields)) == Weight(s) + 1 && Fitting(AddRow(s, fields))
    ensures AddRow(s, fields).skipped > s.skipped <==>
      var h := s.segments[|s.segments| - 1].header; h.Some? && |h.value| != |fields|
  {
    var n := |s.segments| - 1;
    var t := AddRow(s, fields);
    if t.skipped == s.skipped {
      assert t.segments[..n] == s.segments[..n];
      assert Flatten(s.segments) == Flatten(s.segments[..n]) + RowsOf(s.segments[n]);
      assert Flatten(t.segments) == Flatten(s.segments[..n]) + RowsOf(t.segments[n]);
      forall seg, row | seg in t.segments && row in seg.rows && seg.header.Some? ensures |row| == |seg.header.value| {
        if seg in s.segments[..n] {
          assert seg in s.segments;
        } else {
          assert s.segments[n] in s.segments;
          assert row in s.segments[n].rows || row == fields;
        }
      }
    }
  }

  lemma OpenedWeighs(start: string, header: Option<Fields>, file: int, implicit: bool)
    ensures var s := Opened(start, header, file, implicit); Weight(s) == 0 && Fitting(s) && s.segments != []
  {
    var s := Opened(start, header, file, implicit);
    assert s.segments[..0] == [];
    assert Flatten([]) == [];
  }

  lemma EmptySegment(s: Session, h: Option<Fields>)
    requires Fitting(s)
    ensures var t := s.(segments := s.segments + [Segment(h, [])]); Weight(t) == Weight(s) && Fitting(t)
  {
    var t := s.(segments := s.segments + [Segment(h, [])]);
    assert t.segments[..|s.segments|] == s.segments;
    assert Flatten(t.segments) == Flatten(s.segments) + RowsOf(Segment(h, []));
  }

  predicate AllFit(ss: seq<Session>) {
    forall s | s in ss :: Fitting(s) && s.segments != []
  }

  lemma AllFitUpdate(ss: seq<Session>, t: Session)
    requires AllFit(ss) && ss != [] && Fitting(t) && t.segments != []
    ensures AllFit(UpdateLast(ss, t))
  {
  }

  lemma LineWeighs(sc: Scan, line: string, file: int)
    requires AllFit(sc.sessions)
    ensures var after := ReadLine(sc, line, file).sessions;
      AllFit(after) && Weights(after) == Weights(sc.sessions) + if RowLine(line) then 1 else 0
  {
    var ss := sc.sessions;
    if line != "" && "ts," <= line {
      assert line[0] == 't';
      if ss != [] {
        var s := ss[|ss| - 1];
        assert s in ss;
        var h := Some(Split(line, ','));
        EmptySegment(s, h);
        WeightsUpdate(ss, s.(segments := s.segments + [Segment(h, [])]));
        AllFitUpdate(ss, s.(segments := s.segments + [Segment(h, [])]));
      }
    } else if "#BOOT_START" <= line {
      OpenedWeighs(line, sc.header, file, false);
      WeightsSnoc(ss, Opened(line, sc.header, file, false));
    } else if "#CLEAN_STOP" <= line || "#ROLLOVER" <= line {
      FlagWeighs(sc, line, file);
    } else if line != "" {
      RowWeighs(sc, line, file);
    }
  }

  lemma FlagWeighs(sc: Scan, line: string, file: int)
    requires AllFit(sc.sessions) && ("#CLEAN_STOP" <= line || "#ROLLOVER" <= line)
    ensures var after := ReadLine(sc, line, file).sessions; AllFit(after) && Weights(after) == Weights(sc.sessions)
  {
    assert line[0] == '#' && line[1] != 'B';
    var ss, after := sc.sessions, ReadLine(sc, line, file).sessions;
    if ss != [] {
      assert ss[|ss| - 1] in ss;
      var t := after[|ss| - 1];
      assert t.segments == ss[|ss| - 1].segments && t.skipped == ss[|ss| - 1].skipped;
      assert after == UpdateLast(ss, t);
      WeightsUpdate(ss, t);
      AllFitUpdate(ss, t);
    }
  }

  lemma RowWeighs(sc: Scan, line: string, file: int)
    requires AllFit(sc.sessions) && RowLine(line)
    ensures var after := ReadLine(sc, line, file).sessions; AllFit(after) && Weights(after) == Weights(sc.sessions) + 1
  {
    var ss := sc.sessions;
    if ss == [] {
      OpenedWeighs(IMPLICIT_START, sc.header, file, true);
      ss := [Opened(IMPLICIT_START, sc.header, file, true)];
      WeightsSnoc([], ss[0]);
      assert [] + [ss[0]] == ss;
    }
    LastRowWeighs(ss, Split(line, ','));
  }

  lemma LastRowWeighs(ss: seq<Session>, fields: Fields)
    requires AllFit(ss) && ss != []
    ensures var after := UpdateLast(ss, AddRow(ss[|ss| - 1], fields)); AllFit(after) && Weights(after) == Weights(ss) + 1
  {
    var s := ss[|ss| - 1];
    assert s in ss;
    AddRowWeighs(s, fields);
    WeightsUpdate(ss, AddRow(s, fields));
    AllFitUpdate(ss, AddRow(s, fields));
  }

  /** Of any file: every row line is kept or counted as dropped, and every row kept under a
      header is as wide as that header. */
  lemma {:induction false} RowsAccounted(lines: seq<string>, file: int)
    ensures var ss := Load(lines, file).sessions;
      && Weights(ss) == CountRows(lines)
      && forall s | s in ss :: Fitting(s) && s.segments != []
    decreases |lines|
  {
    if lines != [] {
      var n := |lines| - 1;
      RowsAccounted(lines[..n], file);
      LineWeighs(Load(lines[..n], file), lines[n], file);
    }
  }

  // ---------------------------------------------------------------- one session's marks

  predicate AnyWith(lines: seq<string>, mark: string) {
    exists line | line in lines :: mark <= line
  }

  lemma AnySnoc(lines: seq<string>, line: string, mark: string)
    ensures AnyWith(lines + [line], mark) <==> AnyWith(lines, mark) || mark <= line
  {
    if l :| l in lines && mark <= l {
      assert l in lines + [line];
    }
    assert line in lines + [line];
  }

  /** The last line with a mark. */
  function LastWith(lines: seq<string>, mark: string): Option<string> {
    if lines == [] then None
    else if mark <= lines[|lines| - 1] then Some(lines[|lines| - 1])
    else LastWith(lines[..|lines| - 1], mark)
  }

  predicate FlagsFit(s: Session, boot: string, tail: seq<string>, file: int) {
    && s.start == boot && !s.implicit && s.file == file
    && (s.clean <==> AnyWith(tail, "#CLEAN_STOP")) && s.stop == LastWith(tail, "#CLEAN_STOP")
    && (s.rolled <==> AnyWith(tail, "#ROLLOVER"))
  }

  lemma LoadSnoc(lines: seq<string>, line: string, file: int)
    ensures Load(lines + [line], file) == ReadLine(Load(lines, file), line, file)
    ensures MarksOf(lines + [line]) == MarkLine(MarksOf(lines), line)
  {
    assert (lines + [line])[..|lines|] == lines;
  }

  lemma FlagStep(sc: Scan, line: string, boot: string, tail: seq<string>, file: int, earlier: seq<Session>)
    requires sc.sessions != [] && sc.sessions[..|sc.sessions| - 1] == earlier
    requires FlagsFit(sc.sessions[|sc.sessions| - 1], boot, tail, file) && !("#BOOT_START" <= line)
    ensures var ss := ReadLine(sc, line, file).sessions;
      ss != [] && ss[..|ss| - 1] == earlier && FlagsFit(ss[|ss| - 1], boot, tail + [line], file)
  {
    AnySnoc(tail, line, "#CLEAN_STOP");
    AnySnoc(tail, line, "#ROLLOVER");
    assert (tail + [line])[..|tail|] == tail;
    if "#CLEAN_STOP" <= line {
      assert line[1] == 'C';
    } else if "#ROLLOVER" <= line {
      assert line[1] == 'R';
    }
    if "ts," <= line {
      assert line[0] == 't';
    }
  }

  /** Of any file: the session of a start marker, the last one, is announced by it; it is
      clean exactly if a stop marker follows, the last of which it keeps; it is rolled
      exactly if a roll-over marker follows; and the sessions before it stay as they were. */
  lemma {:induction false} SessionMarks(lines: seq<string>, boot: string, tail: seq<string>, file: int)
    requires "#BOOT_START" <= boot && !AnyWith(tail, "#BOOT_START")
    ensures var ss := Load(lines + [boot] + tail, file).sessions;
      ss != [] && ss[..|ss| - 1] == Load(lines, file).sessions && FlagsFit(ss[|ss| - 1], boot, tail, file)
    decreases |tail|
  {
    if tail == [] {
      assert lines + [boot] + tail == lines + [boot];
      LoadSnoc(lines, boot, file);
      assert boot[0] == '#' && boot[1] == 'B';
    } else {
      var before, line := tail[..|tail| - 1], tail[|tail| - 1];
      assert tail == before + [line] && lines + [boot] + tail == lines + [boot] + before + [line];
      AnySnoc(before, line, "#BOOT_START");
      SessionMarks(lines, boot, before, file);
      LoadSnoc(lines + [boot] + before, line, file);
      FlagStep(Load(lines + [boot] + before, file), line, boot, before, file, Load(lines, file).sessions);
    }
  }

  // ---------------------------------------------------------------- the verdict's sample

  predicate SampleLine(line: string) {
    !("#" <= line) && !("ts," <= line)
  }

  predicate NoSample(lines: seq<string>) {
    forall line | line in lines :: !SampleLine(line)
  }

  lemma NoSampleSnoc(lines: seq<string>, line: string)
    ensures NoSample(lines + [line]) <==> NoSample(lines) && !SampleLine(line)
  {
    assert line in lines + [line];
    assert forall l | l in lines :: l in lines + [line];
  }

  lemma MarkSample(m: Marks, line: string)
    ensures MarkLine(m, line).sample == if SampleLine(line) then Some(Strip(line)) else m.sample
  {
    if "#BOOT_START" <= line || "#CLEAN_STOP" <= line {
      assert line[0] == '#';
    }
  }

  /** The sample of a file is its last line that is neither marker nor header. */
  lemma {:induction false} SampleIs(lines: seq<string>)
    ensures MarksOf(lines).sample == None <==> NoSample(lines)
    ensures forall k | 0 <= k < |lines| && SampleLine(lines[k]) && NoSample(lines[k + 1..]) ::
      MarksOf(lines).sample == Some(Strip(lines[k]))
    decreases |lines|
  {
    if lines != [] {
      var before, line := lines[..|lines| - 1], lines[|lines| - 1];
      SampleIs(before);
      assert lines == before + [line];
      NoSampleSnoc(before, line);
      MarkSample(MarksOf(before), line);
      forall k | 0 <= k < |lines| && SampleLine(lines[k]) && NoSample(lines[k + 1..])
        ensures MarksOf(lines).sample == Some(Strip(lines[k]))
      {
        if k < |before| {
          assert lines[k + 1..] == before[k + 1..] + [line] && before[k] == lines[k];
          NoSampleSnoc(before[k + 1..], line);
        }
      }
    }
  }

  /** So the sample shown for an unclean session is its own exactly if it has one: if none
      follows its start marker, the verdict shows that of an earlier session of the file. */
  lemma {:induction false} SampleOfSession(lines: seq<string>, boot: string, tail: seq<string>)
    requires "#BOOT_START" <= boot
    ensures MarksOf(lines + [boot] + tail).sample ==
      if MarksOf(tail).sample.Some? then MarksOf(tail).sample else MarksOf(lines).sample
    decreases |tail|
  {
    if tail == [] {
      assert lines + [boot] + tail == lines + [boot];
      LoadSnoc(lines, boot, 0);
    } else {
      var before, line := tail[..|tail| - 1], tail[|tail| - 1];
      assert tail == before + [line] && lines + [boot] + tail == lines + [boot] + before + [line];
      SampleOfSession(lines, boot, before);
      LoadSnoc(lines + [boot] + before, line, 0);
      LoadSnoc(before, line, 0);
    }
  }

  /** Start and stop of the verdict are those of the file's last session, stripped. */
  lemma {:induction false} MarksOfSession(lines: seq<string>, boot: string, tail: seq<string>)
    requires "#BOOT_START" <= boot && !AnyWith(tail, "#BOOT_START")
    ensures var m, last := MarksOf(lines + [boot] + tail), LastWith(tail, "#CLEAN_STOP");
      m.start == Some(Strip(boot)) && m.stop == if last.Some? then Some(Strip(last.value)) else None
    decreases |tail|
  {
    if tail == [] {
      assert lines + [boot] + tail == lines + [boot];
      LoadSnoc(lines, boot, 0);
    } else {
      var before, line := tail[..|tail| - 1], tail[|tail| - 1];
      assert tail == before + [line] && lines + [boot] + tail == lines + [boot] + before + [line];
      AnySnoc(before, line, "#BOOT_START");
      MarksOfSession(lines, boot, before);
      LoadSnoc(lines + [boot] + before, line, 0);
    }
  }

  // ---------------------------------------------------------------- the directory

  predicate HasDay(disk: Disk, day: int) {
    exists f | f in disk :: f.day == day
  }

  /** Appending, on whatever day, keeps the files in order, adds the text to that day's file
      and touches no other. */
  lemma {:induction false} AppendIs(disk: Disk, day: int, text: string, other: int)
    requires Sorted(disk)
    ensures var d := Append(disk, day, text);
      && Sorted(d) && (HasDay(d, other) <==> HasDay(disk, other) || other == day)
      && ContentOf(d, other) == ContentOf(disk, other) + (if other == day then text else "")
      && (d == [] || disk == [] || d[0].day == disk[0].day || d[0].day == day)
    decreases |disk|
  {
    var d := Append(disk, day, text);
    assert ContentOf(disk, other) + "" == ContentOf(disk, other) && "" + text == text;
    if disk == [] {
      assert d == [File(day, text)];
    } else if day < disk[0].day {
      assert d == [File(day, text)] + disk;
      assert d[1..] == disk;
      NotBefore(disk, day);
    } else if disk[0].day == day {
      SameDays(disk, d);
    } else {
      AppendIs(disk[1..], day, text, other);
      var rest := Append(disk[1..], day, text);
      assert d == [disk[0]] + rest && disk == [disk[0]] + disk[1..] && d[1..] == rest;
      SortedCons(disk[0], rest);
    }
  }

  lemma SortedCons(f: File, rest: Disk)
    requires Sorted(rest) && rest != [] && f.day < rest[0].day
    ensures Sorted([f] + rest)
  {
  }

  lemma {:induction false} NotBefore(disk: Disk, day: int)
    requires Sorted(disk) && disk != [] && day < disk[0].day
    ensures ContentOf(disk, day) == ""
    decreases |disk|
  {
    if |disk| > 1 {
      NotBefore(disk[1..], day);
    } else {
      assert disk[1..] == [];
    }
  }

  lemma SameDays(disk: Disk, d: Disk)
    requires Sorted(disk) && |d| == |disk| && forall i | 0 <= i < |disk| :: d[i].day == disk[i].day
    ensures Sorted(d) && forall x :: HasDay(d, x) <==> HasDay(disk, x)
  {
    forall x ensures HasDay(d, x) <==> HasDay(disk, x) {
      if f :| f in disk && f.day == x {
        var i :| 0 <= i < |disk| && disk[i] == f;
        assert d[i] in d;
      }
      if g :| g in d && g.day == x {
        var i :| 0 <= i < |d| && d[i] == g;
        assert disk[i] in disk;
      }
    }
  }
}
