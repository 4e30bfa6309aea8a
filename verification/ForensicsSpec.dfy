/**
 The crash log of ops/node_forensics.py and its two readers.

 A log directory is a sequence of daily files in name order.  A write is a list of
 appends, each of them atomic; a crash keeps a prefix of that list.
 */
module ForensicsSpec {
  import opened Common
  import opened LogText

  type Fields = seq<string>

  datatype File = File(day: int, content: string)

  type Disk = seq<File>

  /** open(path, "a") and a write; an empty text creates the file. */
  function Append(disk: Disk, day: int, text: string): Disk
    decreases |disk|
  {
    if disk == [] || day < disk[0].day then [File(day, text)] + disk
    else if disk[0].day == day then [File(day, disk[0].content + text)] + disk[1..]
    else [disk[0]] + Append(disk[1..], day, text)
  }

  /** "" stands for a missing file too: _roll treats both as fresh. */
  function ContentOf(disk: Disk, day: int): string
    decreases |disk|
  {
    if disk == [] then ""
    else if disk[0].day == day then disk[0].content
    else ContentOf(disk[1..], day)
  }

  // ---------------------------------------------------------------- writer

  datatype Writer = Writer(header: Fields, day: Option<int>, open: bool, session: Option<string>)

  datatype Put = Put(day: int, text: string)

  function LastHeader(lines: seq<string>): Option<string> {
    if lines == [] then None
    else
      var line := lines[|lines| - 1];
      if "ts," <= line then Some(line) else LastHeader(lines[..|lines| - 1])
  }

  predicate NeedsHeader(content: string, header: Fields) {
    content == "" || LastHeader(Lines(content)) != Some(Join(header, ','))
  }

  function RolloverLine(stamp: string): string { "#ROLLOVER ts=" + stamp }

  function ResumedLine(session: string): string { session + " resumed=1" }

  function Closing(w: Writer, stamp: string): seq<Put> {
    if w.open && w.day.Some? then [Put(w.day.value, RolloverLine(stamp) + "\n")] else []
  }

  function Heading(w: Writer, disk: Disk, today: int): seq<Put> {
    if NeedsHeader(ContentOf(disk, today), w.header) then [Put(today, Join(w.header, ',') + "\n")] else []
  }

  function Resuming(w: Writer, today: int): seq<Put> {
    if w.session.Some? then [Put(today, ResumedLine(w.session.value) + "\n")] else []
  }

  function Roll(w: Writer, disk: Disk, today: int, stamp: string): seq<Put> {
    Closing(w, stamp) + [Put(today, "")] + Heading(w, disk, today) + Resuming(w, today)
  }

  predicate Rolls(w: Writer, today: int) {
    !w.open || w.day != Some(today)
  }

  /** Everything one write appends, in order. */
  function Puts(w: Writer, disk: Disk, today: int, stamp: string, text: string): seq<Put> {
    (if Rolls(w, today) then Roll(w, disk, today, stamp) else []) + [Put(today, text + "\n")]
  }

  function Apply(disk: Disk, puts: seq<Put>): Disk
    decreases |puts|
  {
    if puts == [] then disk
    else Apply(Append(disk, puts[0].day, puts[0].text), puts[1..])
  }

  // ---------------------------------------------------------------- crash_report

  datatype Segment = Segment(header: Option<Fields>, rows: seq<Fields>)

  datatype Session = Session(
    start: string, segments: seq<Segment>, clean: bool, stop: Option<string>,
    file: int, rolled: bool, skipped: nat, implicit: bool)

  /** The last session of a scan is the reader's `current`. */
  datatype Scan = Scan(header: Option<Fields>, sessions: seq<Session>)

  function Opened(start: string, header: Option<Fields>, file: int, implicit: bool): Session {
    Session(start, [Segment(header, [])], false, None, file, false, 0, implicit)
  }

  function UpdateLast(sessions: seq<Session>, s: Session): seq<Session>
    requires sessions != []
  {
    sessions[..|sessions| - 1] + [s]
  }

  function AddRow(s: Session, fields: Fields): Session {
    if s.segments == [] then s
    else
      var seg := s.segments[|s.segments| - 1];
      if seg.header.None? || |fields| == |seg.header.value| then
        s.(segments := s.segments[..|s.segments| - 1] + [seg.(rows := seg.rows + [fields])])
      else s.(skipped := s.skipped + 1)
  }

  const IMPLICIT_START := "#CONTINUACION (sin marcador)"

  function ReadLine(sc: Scan, line: string, file: int): Scan {
    if line == "" then sc
    else if "ts," <= line then
      var h := Some(Split(line, ','));
      if sc.sessions == [] then sc.(header := h)
      else
        var s := sc.sessions[|sc.sessions| - 1];
        Scan(h, UpdateLast(sc.sessions, s.(segments := s.segments + [Segment(h, [])])))
    else if "#BOOT_START" <= line then
      sc.(sessions := sc.sessions + [Opened(line, sc.header, file, false)])
    else if "#CLEAN_STOP" <= line then
      if sc.sessions == [] then sc
      else sc.(sessions := UpdateLast(sc.sessions, sc.sessions[|sc.sessions| - 1].(clean := true, stop := Some(line))))
    else if "#ROLLOVER" <= line then
      if sc.sessions == [] then sc
      else sc.(sessions := UpdateLast(sc.sessions, sc.sessions[|sc.sessions| - 1].(rolled := true)))
    else
      var sessions := if sc.sessions == [] then [Opened(IMPLICIT_START, sc.header, file, true)] else sc.sessions;
      sc.(sessions := UpdateLast(sessions, AddRow(sessions[|sessions| - 1], Split(line, ','))))
  }

  function Load(lines: seq<string>, file: int): Scan {
    if lines == [] then Scan(None, [])
    else ReadLine(Load(lines[..|lines| - 1], file), lines[|lines| - 1], file)
  }

  function LoadFile(f: File): Scan {
    Load(Lines(f.content), f.day)
  }

  const RESUMED_MARK := "resumed=1"

  predicate Continues(s: Session) {
    s.implicit || Contains(s.start, RESUMED_MARK)
  }

  function MergeOne(found: seq<Session>, s: Session): seq<Session> {
    if found != [] && Continues(s) then
      var prev := found[|found| - 1];
      UpdateLast(found, prev.(segments := prev.segments + s.segments, clean := s.clean, file := s.file))
    else found + [s]
  }

  function Merge(found: seq<Session>, ss: seq<Session>): seq<Session> {
    if ss == [] then found
    else MergeOne(Merge(found, ss[..|ss| - 1]), ss[|ss| - 1])
  }

  function AllSessions(disk: Disk): seq<Session> {
    if disk == [] then []
    else Merge(AllSessions(disk[..|disk| - 1]), LoadFile(disk[|disk| - 1]).sessions)
  }

  // ---------------------------------------------------------------- start-up verdict

  datatype Marks = Marks(start: Option<string>, stop: Option<string>, sample: Option<string>)

  datatype Verdict = Verdict(file: int, start: string, sample: Option<string>)

  function MarkLine(m: Marks, line: string): Marks {
    if "#BOOT_START" <= line then m.(start := Some(Strip(line)), stop := None)
    else if "#CLEAN_STOP" <= line then m.(stop := Some(Strip(line)))
    else if !("#" <= line) && !("ts," <= line) then m.(sample := Some(Strip(line)))
    else m
  }

  function MarksOf(lines: seq<string>): Marks {
    if lines == [] then Marks(None, None, None)
    else MarkLine(MarksOf(lines[..|lines| - 1]), lines[|lines| - 1])
  }

  /** previous_session_verdict: the newest file with a start marker decides. */
  function VerdictOf(disk: Disk): Option<Verdict> {
    if disk == [] then None
    else
      var f := disk[|disk| - 1];
      var m := MarksOf(Lines(f.content));
      if m.start.None? then VerdictOf(disk[..|disk| - 1])
      else if m.stop.None? then Some(Verdict(f.day, m.start.value, m.sample))
      else None
  }

  // ---------------------------------------------------------------- histories

  datatype Call = Boot(header: Fields, line: string) | Row(fields: Fields) | Stop(line: string)

  /** A call of the writer on a day; the machine may die in it, losing its last `lost`
      appends, or just after it.  `Died` is a death between calls. */
  datatype Event = Wrote(day: int, stamp: string, call: Call, lost: nat, dies: bool) | Died

  datatype World = World(disk: Disk, clock: int, live: Option<Writer>)

  predicate GoodFields(fields: Fields) {
    fields != [] && Free(fields, ',') && Free(fields, '\n')
  }

  predicate GoodHeader(header: Fields) {
    GoodFields(header) && |header| >= 2 && header[0] == "ts"
  }

  predicate GoodRow(fields: Fields, header: Fields) {
    GoodFields(fields) && |fields| == |header| && fields[0] != "ts" && !("#" <= fields[0])
  }

  predicate GoodBoot(line: string) {
    "#BOOT_START" <= line && '\n' !in line && !Contains(line, RESUMED_MARK)
  }

  /** One writer at a time, dates that do not go back, and well-formed lines. */
  predicate Legal(w: World, e: Event) {
    match e
    case Died => true
    case Wrote(day, stamp, call, lost, dies) =>
      && w.clock <= day
      && '\n' !in stamp
      && (lost > 0 ==> dies)
      && match call
         case Boot(header, line) => w.live.None? && GoodHeader(header) && GoodBoot(line)
         case Row(fields) => w.live.Some? && GoodRow(fields, w.live.value.header)
         case Stop(line) => w.live.Some? && "#CLEAN_STOP" <= line && '\n' !in line
  }

  function TextOf(call: Call): string {
    match call
    case Boot(_, line) => line
    case Row(fields) => Join(fields, ',')
    case Stop(line) => line
  }

  function WriterFor(w: World, call: Call): Option<Writer> {
    if call.Boot? then Some(Writer(call.header, None, false, None)) else w.live
  }

  function Step(w: World, e: Event): World {
    match e
    case Died => w.(live := None)
    case Wrote(day, stamp, call, lost, dies) =>
      match WriterFor(w, call)
      case None => w
      case Some(writer) =>
        var puts := Puts(writer, w.disk, day, stamp, TextOf(call));
        var done := if lost <= |puts| then |puts| - lost else 0;
        var after := writer.(day := Some(day), open := true,
                             session := if call.Boot? then Some(call.line) else writer.session);
        World(Apply(w.disk, puts[..done]), day, if dies || call.Stop? then None else Some(after))
  }

  function After(w: World, es: seq<Event>): World {
    if es == [] then w else Step(After(w, es[..|es| - 1]), es[|es| - 1])
  }

  predicate Runs(w: World, es: seq<Event>) {
    es == [] || (Runs(w, es[..|es| - 1]) && Legal(After(w, es[..|es| - 1]), es[|es| - 1]))
  }

  // ---------------------------------------------------------------- what happened

  datatype Sample = Sample(header: Option<Fields>, fields: Fields)

  /** A session as its writer lived it. */
  datatype Account = Account(start: string, rows: seq<Sample>, clean: bool)

  datatype Telling = Telling(accounts: seq<Account>, header: Fields)

  function Amend(accounts: seq<Account>, a: Account): seq<Account>
    requires accounts != []
  {
    accounts[..|accounts| - 1] + [a]
  }

  /** Read off the events alone: what counts is what reached the disk whole. */
  function Tell(t: Telling, e: Event): Telling {
    if e.Died? || e.lost > 0 then t
    else match e.call
      case Boot(header, line) => Telling(t.accounts + [Account(line, [], false)], header)
      case Row(fields) =>
        if t.accounts == [] then t
        else
          var a := t.accounts[|t.accounts| - 1];
          t.(accounts := Amend(t.accounts, a.(rows := a.rows + [Sample(Some(t.header), fields)])))
      case Stop(_) =>
        if t.accounts == [] then t
        else t.(accounts := Amend(t.accounts, t.accounts[|t.accounts| - 1].(clean := true)))
  }

  function Told(es: seq<Event>): Telling {
    if es == [] then Telling([], []) else Tell(Told(es[..|es| - 1]), es[|es| - 1])
  }

  /** The rows of a session with their headers; empty segments leave nothing. */
  function RowsOf(seg: Segment): seq<Sample> {
    seq(|seg.rows|, i requires 0 <= i < |seg.rows| => Sample(seg.header, seg.rows[i]))
  }

  function Flatten(segments: seq<Segment>): seq<Sample> {
    if segments == [] then []
    else Flatten(segments[..|segments| - 1]) + RowsOf(segments[|segments| - 1])
  }

  function Report(s: Session): Account {
    Account(s.start, Flatten(s.segments), s.clean)
  }

  function Reports(ss: seq<Session>): seq<Account> {
    seq(|ss|, i requires 0 <= i < |ss| => Report(ss[i]))
  }
}
