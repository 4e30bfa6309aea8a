/** Round trip over whole histories, crashes included, and agreement of the readers. */
module ForensicsRoundTrip {
  import opened Common
  import opened LogText
  import opened ForensicsSpec
  import opened ForensicsTheorems

  // ---------------------------------------------------------------- appends that tell nothing

  /** Every append of `puts` leaves a directory that is ok. */
  ghost predicate AllOk(disk: Disk, puts: seq<Put>, ok: Disk -> bool)
    decreases |puts|
  {
    puts == []
    || (var d := Append(disk, puts[0].day, puts[0].text);
        ok(d) && AllOk(d, puts[1..], ok))
  }

  ghost function Reading(day: int, accounts: seq<Account>): Disk -> bool {
    disk => Reads(disk, day, accounts)
  }

  /** Every append of `puts` leaves the same accounts to read. */
  ghost predicate Quiet(disk: Disk, puts: seq<Put>, day: int, accounts: seq<Account>) {
    AllOk(disk, puts, Reading(day, accounts))
  }

  lemma {:induction false} OkPrefix(disk: Disk, puts: seq<Put>, ok: Disk -> bool, k: nat)
    requires ok(disk) && AllOk(disk, puts, ok) && k <= |puts|
    ensures ok(Apply(disk, puts[..k]))
    decreases k
  {
    if k > 0 {
      assert puts[..k][1..] == puts[1..][..k - 1];
      OkPrefix(Append(disk, puts[0].day, puts[0].text), puts[1..], ok, k - 1);
    }
  }

  lemma QuietPrefix(disk: Disk, puts: seq<Put>, day: int, accounts: seq<Account>, k: nat)
    requires Reads(disk, day, accounts) && Quiet(disk, puts, day, accounts) && k <= |puts|
    ensures Reads(Apply(disk, puts[..k]), day, accounts)
  {
    OkPrefix(disk, puts, Reading(day, accounts), k);
  }

  lemma {:induction false} OkConcat(disk: Disk, a: seq<Put>, b: seq<Put>, ok: Disk -> bool)
    requires AllOk(disk, a, ok) && AllOk(Apply(disk, a), b, ok)
    ensures AllOk(disk, a + b, ok)
    decreases |a|
  {
    if a == [] {
      assert a + b == b;
    } else {
      assert (a + b)[0] == a[0] && (a + b)[1..] == a[1..] + b;
      OkConcat(Append(disk, a[0].day, a[0].text), a[1..], b, ok);
    }
  }

  lemma QuietConcat(disk: Disk, a: seq<Put>, b: seq<Put>, day: int, accounts: seq<Account>)
    requires Quiet(disk, a, day, accounts) && Quiet(Apply(disk, a), b, day, accounts)
    ensures Quiet(disk, a + b, day, accounts)
  {
    OkConcat(disk, a, b, Reading(day, accounts));
  }

  lemma {:induction false} ApplyConcat(disk: Disk, a: seq<Put>, b: seq<Put>)
    ensures Apply(disk, a + b) == Apply(Apply(disk, a), b)
    decreases |a|
  {
    if a == [] {
      assert a + b == b;
    } else {
      assert (a + b)[1..] == a[1..] + b;
      ApplyConcat(Append(disk, a[0].day, a[0].text), a[1..], b);
    }
  }

  lemma ApplyOne(disk: Disk, p: Put)
    ensures Apply(disk, [p]) == Append(disk, p.day, p.text)
  {
    assert [p][1..] == [];
    assert Apply(Append(disk, p.day, p.text), []) == Append(disk, p.day, p.text);
  }

  lemma QuietOne(disk: Disk, p: Put, day: int, accounts: seq<Account>)
    requires Reads(Append(disk, p.day, p.text), day, accounts)
    ensures Quiet(disk, [p], day, accounts)
  {
    assert AllOk(Append(disk, p.day, p.text), [p][1..], Reading(day, accounts));
  }

  // ---------------------------------------------------------------- a live writer

  /** The writer's file is the newest, is headed by its header and its session is open. */
  predicate Fits(w: Writer, disk: Disk, accounts: seq<Account>) {
    && disk != [] && w.open && w.day == Some(Last(disk).day)
    && w.session.Some? && GoodBoot(w.session.value) && GoodHeader(w.header)
    && Scanned(disk, Last(disk).day).header == Some(w.header)
    && Scanned(disk, Last(disk).day).sessions != []
    && accounts != [] && !accounts[|accounts| - 1].clean
  }

  predicate JustMade(w: Writer) {
    !w.open && w.session.None? && GoodHeader(w.header)
  }

  lemma LaterReads(disk: Disk, day: int, later: int, accounts: seq<Account>)
    requires Reads(disk, day, accounts) && day <= later
    ensures Reads(disk, later, accounts)
  {
  }

  lemma ClosingQuiet(w: Writer, disk: Disk, today: int, stamp: string, accounts: seq<Account>)
    requires Reads(disk, today, accounts) && '\n' !in stamp && Rolls(w, today)
    requires JustMade(w) || Fits(w, disk, accounts)
    ensures var d := Apply(disk, Closing(w, stamp));
      && Quiet(disk, Closing(w, stamp), today, accounts) && Reads(d, today, accounts)
      && Today(d, today) == Today(disk, today)
  {
    if w.open {
      var day := Last(disk).day;
      var p := Put(day, RolloverLine(stamp) + "\n");
      RolloverQuiet(disk, day, today, stamp, accounts);
      ApplyOne(disk, p);
      QuietOne(disk, p, today, accounts);
      assert Closing(w, stamp) == [p];
    }
  }

  lemma RolloverQuiet(disk: Disk, day: int, today: int, stamp: string, accounts: seq<Account>)
    requires Reads(disk, today, accounts) && '\n' !in stamp && disk != [] && Last(disk).day == day < today
    ensures var d := Append(disk, day, RolloverLine(stamp) + "\n");
      Reads(d, today, accounts) && Today(d, today) == Today(disk, today)
  {
    WritesRollover(disk, day, accounts, stamp);
    LineLands(disk, day, RolloverLine(stamp));
    LaterReads(Append(disk, day, RolloverLine(stamp) + "\n"), day, today, accounts);
  }

  lemma HeadingQuiet(w: Writer, disk: Disk, now: Disk, today: int, accounts: seq<Account>)
    requires Reads(now, today, accounts) && now != [] && Last(now).day == today
    requires GoodHeader(w.header) && ContentOf(disk, today) == Today(now, today).content
    ensures var d := Apply(now, Heading(w, disk, today));
      && Quiet(now, Heading(w, disk, today), today, accounts)
      && Reads(d, today, accounts) && d != [] && Last(d).day == today
      && Scanned(d, today).header == Some(w.header)
  {
    if NeedsHeader(ContentOf(disk, today), w.header) {
      WritesHeader(now, today, accounts, w.header);
      var p := Put(today, Join(w.header, ',') + "\n");
      ApplyOne(now, p);
      QuietOne(now, p, today, accounts);
    } else {
      LoadFits(Lines(Today(now, today).content), today);
      SplitJoin(w.header, ',');
    }
  }

  lemma ResumedIsBoot(session: string)
    requires "#BOOT_START" <= session && '\n' !in session
    ensures var r := ResumedLine(session); "#BOOT_START" <= r && '\n' !in r && Contains(r, RESUMED_MARK)
  {
    assert ResumedLine(session) == (session + " ") + RESUMED_MARK;
    ContainsAtEnd(session + " ", RESUMED_MARK);
  }

  lemma ResumingQuiet(w: Writer, disk: Disk, today: int, accounts: seq<Account>)
    requires Reads(disk, today, accounts) && disk != [] && Last(disk).day == today
    requires w.session.Some? ==> GoodBoot(w.session.value) && accounts != [] && !accounts[|accounts| - 1].clean
    ensures var d := Apply(disk, Resuming(w, today));
      && Quiet(disk, Resuming(w, today), today, accounts)
      && Reads(d, today, accounts) && d != [] && Last(d).day == today
      && Scanned(d, today).header == Scanned(disk, today).header
      && (w.session.Some? ==> Scanned(d, today).sessions != [])
  {
    if w.session.Some? {
      ResumedIsBoot(w.session.value);
      WritesBoot(disk, today, accounts, ResumedLine(w.session.value));
      var p := Put(today, ResumedLine(w.session.value) + "\n");
      ApplyOne(disk, p);
      QuietOne(disk, p, today, accounts);
    }
  }

  /** What a writer needs of the directory before its text goes in. */
  predicate Ready(w: Writer, disk: Disk, today: int) {
    && disk != [] && Last(disk).day == today
    && Scanned(disk, today).header == Some(w.header)
    && (w.session.Some? ==> Scanned(disk, today).sessions != [])
  }

  /** Rolling over tells nothing, wherever it is cut short, and readies today's file. */
  lemma RollQuiet(w: Writer, disk: Disk, today: int, stamp: string, accounts: seq<Account>)
    requires Reads(disk, today, accounts) && '\n' !in stamp && Rolls(w, today)
    requires JustMade(w) || Fits(w, disk, accounts)
    ensures var d := Apply(disk, Roll(w, disk, today, stamp));
      && Quiet(disk, Roll(w, disk, today, stamp), today, accounts)
      && Reads(d, today, accounts) && Ready(w, d, today)
  {
    var c, t := Closing(w, stamp), [Put(today, "")];
    var h, r := Heading(w, disk, today), Resuming(w, today);
    ClosingQuiet(w, disk, today, stamp, accounts);
    var d1 := Apply(disk, c);
    Touches(d1, today, accounts);
    ApplyOne(d1, t[0]);
    QuietOne(d1, t[0], today, accounts);
    QuietConcat(disk, c, t, today, accounts);
    ApplyConcat(disk, c, t);
    AppendToday(disk, today, "");
    var d2 := Apply(d1, t);
    HeadingQuiet(w, disk, d2, today, accounts);
    QuietConcat(disk, c + t, h, today, accounts);
    ApplyConcat(disk, c + t, h);
    var d3 := Apply(d2, h);
    ResumingQuiet(w, d3, today, accounts);
    QuietConcat(disk, c + t + h, r, today, accounts);
    ApplyConcat(disk, c + t + h, r);
  }

  // ---------------------------------------------------------------- a write, whole or cut

  function Rolling(w: Writer, disk: Disk, today: int, stamp: string): seq<Put> {
    if Rolls(w, today) then Roll(w, disk, today, stamp) else []
  }

  lemma RollingQuiet(w: Writer, disk: Disk, today: int, stamp: string, accounts: seq<Account>)
    requires Reads(disk, today, accounts) && '\n' !in stamp
    requires JustMade(w) || Fits(w, disk, accounts)
    ensures var d := Apply(disk, Rolling(w, disk, today, stamp));
      && Quiet(disk, Rolling(w, disk, today, stamp), today, accounts)
      && Reads(d, today, accounts) && Ready(w, d, today)
  {
    if Rolls(w, today) {
      RollQuiet(w, disk, today, stamp, accounts);
    }
  }

  /** A write that loses its text leaves the accounts as they were. */
  lemma CutWrite(w: Writer, disk: Disk, today: int, stamp: string, text: string, accounts: seq<Account>, k: nat)
    requires Reads(disk, today, accounts) && '\n' !in stamp
    requires JustMade(w) || Fits(w, disk, accounts)
    requires k < |Puts(w, disk, today, stamp, text)|
    ensures Reads(Apply(disk, Puts(w, disk, today, stamp, text)[..k]), today, accounts)
  {
    var r := Rolling(w, disk, today, stamp);
    RollingQuiet(w, disk, today, stamp, accounts);
    assert (r + [Put(today, text + "\n")])[..k] == r[..k];
    QuietPrefix(disk, r, today, accounts, k);
  }

  function Rolled(w: Writer, disk: Disk, today: int, stamp: string): Disk {
    Apply(disk, Rolling(w, disk, today, stamp))
  }

  lemma WholeWrite(w: Writer, disk: Disk, today: int, stamp: string, text: string, accounts: seq<Account>)
    requires Reads(disk, today, accounts) && '\n' !in stamp
    requires JustMade(w) || Fits(w, disk, accounts)
    ensures var d := Rolled(w, disk, today, stamp);
      && Reads(d, today, accounts) && Ready(w, d, today)
      && Apply(disk, Puts(w, disk, today, stamp, text)) == Append(d, today, text + "\n")
  {
    RollingQuiet(w, disk, today, stamp, accounts);
    var p := Put(today, text + "\n");
    ApplyConcat(disk, Rolling(w, disk, today, stamp), [p]);
    ApplyOne(Rolled(w, disk, today, stamp), p);
  }

  // ---------------------------------------------------------------- histories

  /** The directory tells what happened, and a live writer fits its file. */
  predicate Kept(w: World, t: Telling) {
    && Reads(w.disk, w.clock, t.accounts)
    && (w.live.Some? ==> Fits(w.live.value, w.disk, t.accounts) && w.live.value.header == t.header)
  }

  lemma BootKeeps(w: World, t: Telling, e: Event)
    requires Kept(w, t) && Legal(w, e) && e.Wrote? && e.call.Boot? && e.lost == 0
    ensures Kept(Step(w, e), Tell(t, e))
  {
    var writer := Writer(e.call.header, None, false, None);
    var puts := Puts(writer, w.disk, e.day, e.stamp, e.call.line);
    assert puts[..|puts|] == puts;
    LaterReads(w.disk, w.clock, e.day, t.accounts);
    WholeWrite(writer, w.disk, e.day, e.stamp, e.call.line, t.accounts);
    WritesBoot(Rolled(writer, w.disk, e.day, e.stamp), e.day, t.accounts, e.call.line);
  }

  lemma RowKeeps(w: World, t: Telling, e: Event)
    requires Kept(w, t) && Legal(w, e) && e.Wrote? && e.call.Row? && e.lost == 0
    ensures Kept(Step(w, e), Tell(t, e))
  {
    var writer := w.live.value;
    var text := Join(e.call.fields, ',');
    var puts := Puts(writer, w.disk, e.day, e.stamp, text);
    assert puts[..|puts|] == puts;
    LaterReads(w.disk, w.clock, e.day, t.accounts);
    WholeWrite(writer, w.disk, e.day, e.stamp, text, t.accounts);
    RowWritten(writer, Rolled(writer, w.disk, e.day, e.stamp), e.day, t.accounts, e.call.fields);
  }

  lemma RowWritten(writer: Writer, disk: Disk, day: int, accounts: seq<Account>, fields: Fields)
    requires Reads(disk, day, accounts) && Ready(writer, disk, day) && writer.session.Some?
    requires accounts != [] && !accounts[|accounts| - 1].clean
    requires GoodHeader(writer.header) && GoodRow(fields, writer.header)
    ensures var d := Append(disk, day, Join(fields, ',') + "\n");
      && Reads(d, day, Grown(accounts, [Sample(Some(writer.header), fields)], false))
      && Ready(writer, d, day)
  {
    var line := Join(fields, ',');
    WritesRow(disk, day, accounts, fields, writer.header);
    RowLine(fields, writer.header);
    LineLands(disk, day, line);
    ReadsRow(Scanned(disk, day), line, day);
  }

  lemma StopKeeps(w: World, t: Telling, e: Event)
    requires Kept(w, t) && Legal(w, e) && e.Wrote? && e.call.Stop? && e.lost == 0
    ensures Kept(Step(w, e), Tell(t, e))
  {
    var writer := w.live.value;
    var puts := Puts(writer, w.disk, e.day, e.stamp, e.call.line);
    assert puts[..|puts|] == puts;
    LaterReads(w.disk, w.clock, e.day, t.accounts);
    WholeWrite(writer, w.disk, e.day, e.stamp, e.call.line, t.accounts);
    WritesStop(Rolled(writer, w.disk, e.day, e.stamp), e.day, t.accounts, e.call.line);
    var a := t.accounts[|t.accounts| - 1];
    assert a.rows + [] == a.rows;
  }

  /** The writer of a call is new or fits the directory. */
  lemma WriterIsReady(w: World, t: Telling, e: Event)
    requires Kept(w, t) && Legal(w, e) && e.Wrote?
    ensures WriterFor(w, e.call).Some?
    ensures var writer := WriterFor(w, e.call).value; JustMade(writer) || Fits(writer, w.disk, t.accounts)
    ensures Reads(w.disk, e.day, t.accounts)
  {
    LaterReads(w.disk, w.clock, e.day, t.accounts);
  }

  lemma CutKeeps(w: World, t: Telling, e: Event)
    requires Kept(w, t) && Legal(w, e) && e.Wrote? && e.lost > 0
    ensures Kept(Step(w, e), Tell(t, e))
  {
    var writer := WriterFor(w, e.call).value;
    var puts := Puts(writer, w.disk, e.day, e.stamp, TextOf(e.call));
    var done := if e.lost <= |puts| then |puts| - e.lost else 0;
    WriterIsReady(w, t, e);
    CutWrite(writer, w.disk, e.day, e.stamp, TextOf(e.call), t.accounts, done);
    assert Step(w, e) == World(Apply(w.disk, puts[..done]), e.day, None);
  }

  lemma StepKeeps(w: World, t: Telling, e: Event)
    requires Kept(w, t) && Legal(w, e)
    ensures Kept(Step(w, e), Tell(t, e))
  {
    if e.Wrote? {
      if e.lost > 0 {
        CutKeeps(w, t, e);
      } else {
        match e.call
        case Boot(_, _) => BootKeeps(w, t, e);
        case Row(_) => RowKeeps(w, t, e);
        case Stop(_) => StopKeeps(w, t, e);
      }
    }
  }

  function Start(clock: int): World {
    World([], clock, None)
  }

  lemma {:induction false} RunKeeps(clock: int, es: seq<Event>)
    requires Runs(Start(clock), es)
    ensures Kept(After(Start(clock), es), Told(es))
    decreases |es|
  {
    if es != [] {
      RunKeeps(clock, es[..|es| - 1]);
      StepKeeps(After(Start(clock), es[..|es| - 1]), Told(es[..|es| - 1]), es[|es| - 1]);
    } else {
      assert AllSessions([]) == [];
    }
  }

  /** all_sessions rebuilds the started sessions in order, each with its rows under their
      header and its ending, after every history; and it drops no row. */
  lemma LogRoundTrip(clock: int, es: seq<Event>)
    requires Runs(Start(clock), es)
    ensures var disk := After(Start(clock), es).disk;
      && Reports(AllSessions(disk)) == Told(es).accounts
      && AllPlain(disk)
  {
    RunKeeps(clock, es);
  }
}
