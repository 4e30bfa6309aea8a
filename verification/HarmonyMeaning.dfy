/**
 What a token stream means, read off the stream without a parser: the messages between
 its start and stop tokens, and the state it leaves.  The parser computes exactly that.
 */
module HarmonyMeaning {
  import opened Common
  import opened HarmonySpec
  import opened HarmonyTheorems
  import opened HarmonyStream

  // ---------------------------------------------------------------- cutting a stream

  predicate IsMark(t: Token, marks: set<Special>) {
    t.Special? && t.special in marks
  }

  /** The tokens before the first mark. */
  function Until(ts: seq<Token>, marks: set<Special>): seq<Token> {
    if ts == [] || IsMark(ts[0], marks) then [] else [ts[0]] + Until(ts[1..], marks)
  }

  /** The tokens from the first mark on. */
  function Onward(ts: seq<Token>, marks: set<Special>): (r: seq<Token>)
    ensures |r| <= |ts| && (r != [] ==> IsMark(r[0], marks))
  {
    if ts == [] || IsMark(ts[0], marks) then ts else Onward(ts[1..], marks)
  }

  /** The text of a stretch of tokens, whatever other tokens are in it. */
  function TextOf(ts: seq<Token>): string {
    if ts == [] then "" else (if ts[0].Text? then ts[0].piece else "") + TextOf(ts[1..])
  }

  function Stops(): set<Special> { {End, Return, Call} }

  function Ends(): set<Special> { {Start, End, Return, Call} }

  // ---------------------------------------------------------------- the meaning

  /** The message of the tokens after a start token: up to the first channel or message
      token stands the header, between channel and message the channel, and all text after
      the first message token is content. */
  function MessageOf(seg: seq<Token>): Parsed {
    var header := TextOf(Until(seg, {Channel, Message}));
    var rest := Onward(seg, {Channel, Message});
    if rest == [] then Parsed(None, None, "")
    else if rest[0] == Special(Message) then Parsed(Some("final"), RecipientIn(header), TextOf(rest[1..]))
    else
      var body := Onward(rest[1..], {Message});
      if body == [] then Parsed(None, RecipientIn(header), "")
      else Parsed(Some(ChannelIn(TextOf(Until(rest[1..], {Message})))), RecipientIn(header), TextOf(body[1..]))
  }

  /** One message for each start token, up to the next start or stop token. */
  function Meaning(ts: seq<Token>): seq<Parsed>
    decreases |ts|
  {
    var r := Onward(ts, {Start});
    if r == [] then [] else [MessageOf(Until(r[1..], Ends()))] + Meaning(r[1..])
  }

  // ---------------------------------------------------------------- the parser computes it

  /** What the open message of a parser comes to after `seg`, which ends no message. */
  function Completed(p: Parser, seg: seq<Token>): Parsed
    requires p.current.Some?
  {
    var c := p.current.value;
    match p.state
    case Waiting => c
    case InContent => c.(content := c.content + TextOf(seg))
    case InChannel => WithChannel(c, p.channel, seg)
    case InHeader =>
      var header := p.header + TextOf(Until(seg, {Channel, Message}));
      var rest := Onward(seg, {Channel, Message});
      if rest == [] then c
      else if rest[0] == Special(Message) then
        c.(recipient := RecipientIn(header), channel := Some("final"), content := c.content + TextOf(rest[1..]))
      else WithChannel(c.(recipient := RecipientIn(header)), p.channel, rest[1..])
  }

  function WithChannel(c: Parsed, channel: string, seg: seq<Token>): Parsed {
    var body := Onward(seg, {Message});
    if body == [] then c
    else c.(channel := Some(ChannelIn(channel + TextOf(Until(seg, {Message})))), content := c.content + TextOf(body[1..]))
  }

  lemma Glue(a: string, b: string, c: string)
    ensures a + (b + c) == a + b + c && a + "" == a && "" + a == a
  {
  }

  lemma UntilCons(t: Token, seg: seq<Token>, marks: set<Special>)
    ensures Until([t] + seg, marks) == if IsMark(t, marks) then [] else [t] + Until(seg, marks)
    ensures Onward([t] + seg, marks) == if IsMark(t, marks) then [t] + seg else Onward(seg, marks)
    ensures TextOf([t] + seg) == (if t.Text? then t.piece else "") + TextOf(seg)
  {
    assert ([t] + seg)[1..] == seg;
  }

  lemma TextCons(t: Token, seg: seq<Token>)
    ensures TextOf([t] + seg) == (if t.Text? then t.piece else "") + TextOf(seg)
  {
    assert ([t] + seg)[1..] == seg;
  }

  lemma StepInContent(p: Parser, t: Token, seg: seq<Token>)
    requires p.current.Some? && p.state == InContent && !IsMark(t, Ends())
    ensures var q := Step(p, t);
      q.current.Some? && q.messages == p.messages && Completed(p, [t] + seg) == Completed(q, seg)
  {
    TextCons(t, seg);
    Glue(p.current.value.content, if t.Text? then t.piece else "", TextOf(seg));
  }

  lemma StepInChannel(p: Parser, t: Token, seg: seq<Token>)
    requires p.current.Some? && p.state == InChannel && !IsMark(t, Ends())
    ensures var q := Step(p, t);
      q.current.Some? && q.messages == p.messages && Completed(p, [t] + seg) == Completed(q, seg)
  {
    UntilCons(t, seg, {Message});
    if t == Special(Message) {
      assert ([t] + seg)[1..] == seg;
      Glue(p.channel, "", "");
    } else {
      TextCons(t, Until(seg, {Message}));
      Glue(p.channel, if t.Text? then t.piece else "", TextOf(Until(seg, {Message})));
    }
  }

  lemma StepInHeader(p: Parser, t: Token, seg: seq<Token>)
    requires p.current.Some? && p.state == InHeader && !IsMark(t, Ends())
    ensures var q := Step(p, t);
      q.current.Some? && q.messages == p.messages && Completed(p, [t] + seg) == Completed(q, seg)
  {
    UntilCons(t, seg, {Channel, Message});
    if IsMark(t, {Channel, Message}) {
      assert ([t] + seg)[1..] == seg && ([t] + seg)[0] == t;
      Glue(p.header, "", "");
    } else {
      TextCons(t, Until(seg, {Channel, Message}));
      Glue(p.header, if t.Text? then t.piece else "", TextOf(Until(seg, {Channel, Message})));
    }
  }

  lemma StepOpen(p: Parser, t: Token, seg: seq<Token>)
    requires Shape(p) && p.current.Some? && !IsMark(t, Ends())
    ensures var q := Step(p, t);
      q.current.Some? && q.messages == p.messages && Completed(p, [t] + seg) == Completed(q, seg)
  {
    match p.state
    case InContent => StepInContent(p, t, seg);
    case InChannel => StepInChannel(p, t, seg);
    case InHeader => StepInHeader(p, t, seg);
    case Waiting =>
  }

  /** A token other than a start token adds no message by itself. */
  lemma MeaningSkips(ts: seq<Token>)
    requires ts != [] && ts[0] != Special(Start)
    ensures Meaning(ts) == Meaning(ts[1..])
  {
  }

  lemma MeaningStarts(ts: seq<Token>)
    requires ts != [] && ts[0] == Special(Start)
    ensures Meaning(ts) == [MessageOf(Until(ts[1..], Ends()))] + Meaning(ts[1..])
  {
  }

  /** A message just started comes to what its tokens mean. */
  lemma CompletedFresh(p: Parser, seg: seq<Token>)
    requires p.state == InHeader && p.header == "" && p.channel == "" && p.current == Some(Parsed(None, None, ""))
    ensures Completed(p, seg) == MessageOf(seg)
  {
    Glue(TextOf(Until(seg, {Channel, Message})), "", "");
    var rest := Onward(seg, {Channel, Message});
    if rest != [] {
      Glue(TextOf(rest[1..]), "", "");
      Glue(TextOf(Until(rest[1..], {Message})), "", "");
      var body := Onward(rest[1..], {Message});
      if body != [] {
        Glue(TextOf(body[1..]), "", "");
      }
    }
  }

  lemma CompletedNow(p: Parser)
    requires p.current.Some?
    ensures Completed(p, []) == p.current.value
  {
    Glue(p.current.value.content, "", "");
  }

  lemma Glue3(a: seq<Parsed>, b: Parsed, c: seq<Parsed>)
    ensures a + ([b] + c) == a + [b] + c
  {
  }

  /** The messages a parser has after `ts`, its open one included. */
  function Expected(p: Parser, ts: seq<Token>): seq<Parsed> {
    if p.current.Some? then p.messages + [Completed(p, Until(ts, Ends()))] + Meaning(ts) else p.messages + Meaning(ts)
  }

  lemma ExpectedStart(p: Parser, rest: seq<Token>)
    ensures Expected(p, [Special(Start)] + rest) == Expected(Step(p, Special(Start)), rest)
  {
    var ts := [Special(Start)] + rest;
    assert ts[1..] == rest;
    MeaningStarts(ts);
    CompletedFresh(Step(p, Special(Start)), Until(rest, Ends()));
    if p.current.Some? {
      CompletedNow(p);
    }
    Glue3(Closed(p), MessageOf(Until(rest, Ends())), Meaning(rest));
  }

  lemma ExpectedOther(p: Parser, t: Token, rest: seq<Token>)
    requires Shape(p) && t != Special(Start)
    ensures Expected(p, [t] + rest) == Expected(Step(p, t), rest)
  {
    var ts := [t] + rest;
    assert ts[1..] == rest;
    MeaningSkips(ts);
    if p.current.None? {
      StepIdle(p, t);
    } else {
      UntilCons(t, rest, Ends());
      if IsMark(t, Ends()) {
        CompletedNow(p);
        StepStop(p, t);
      } else {
        StepOpen(p, t, Until(rest, Ends()));
      }
    }
  }

  lemma StepIdle(p: Parser, t: Token)
    requires Shape(p) && p.current.None? && t != Special(Start)
    ensures Step(p, t).current.None? && Step(p, t).messages == p.messages
  {
  }

  lemma StepStop(p: Parser, t: Token)
    requires p.current.Some? && IsMark(t, Ends()) && t != Special(Start)
    ensures Step(p, t).current.None? && Step(p, t).messages == p.messages + [p.current.value]
  {
  }

  lemma ExpectedStep(p: Parser, ts: seq<Token>)
    requires Shape(p) && ts != []
    ensures Expected(p, ts) == Expected(Step(p, ts[0]), ts[1..])
  {
    assert ts == [ts[0]] + ts[1..];
    if ts[0] == Special(Start) {
      ExpectedStart(p, ts[1..]);
    } else {
      ExpectedOther(p, ts[0], ts[1..]);
    }
  }

  lemma {:induction false} RunMeans(p: Parser, ts: seq<Token>)
    requires Shape(p)
    ensures Closed(Run(p, ts)) == Expected(p, ts)
    decreases |ts|
  {
    if ts == [] {
      if p.current.Some? {
        CompletedNow(p);
      }
      assert Meaning([]) == [];
    } else {
      ExpectedStep(p, ts);
      StepShape(p, ts[0]);
      RunMeans(Step(p, ts[0]), ts[1..]);
    }
  }

  /** On every token stream: the parser's messages, with the open one last, are the
      stream's meaning. */
  lemma ParserMeans(ts: seq<Token>)
    ensures Closed(Run(Fresh(), ts)) == Meaning(ts)
  {
    RunMeans(Fresh(), ts);
  }

  /** Each of the three stop tokens completes what is open: the parser waits, and has as
      many messages as start tokens were seen. */
  lemma StopCompletes(ts: seq<Token>, stop: Special)
    requires stop in {End, Return, Call}
    ensures var q := Run(Fresh(), ts + [Special(stop)]);
      && q.state == Waiting && q.current == None && q.currentChannel == None && q.currentRecipient == None
      && q.delta == "" && |q.messages| == Starts(ts) && q.messages == Meaning(ts)
  {
    RunAppend(Fresh(), ts, [Special(stop)]);
    var p := Run(Fresh(), ts);
    assert [Special(stop)][1..] == [];
    assert Run(p, [Special(stop)]) == Step(p, Special(stop));
    ParserMeans(ts);
    RunShape(Fresh(), ts);
  }

  // ---------------------------------------------------------------- the state

  /** The last mark of a stream. */
  function LastOf(ts: seq<Token>, marks: set<Special>): Option<Special> {
    if ts == [] then None
    else
      var t := ts[|ts| - 1];
      if IsMark(t, marks) then Some(t.special) else LastOf(ts[..|ts| - 1], marks)
  }

  function Marks(): set<Special> { {Start, Message, End, Return, Call} }

  lemma RunSnoc(p: Parser, ts: seq<Token>, t: Token)
    ensures Run(p, ts + [t]) == Step(Run(p, ts), t)
  {
    RunAppend(p, ts, [t]);
    assert [t][1..] == [];
    assert Run(Run(p, ts), [t]) == Step(Run(p, ts), t);
  }

  predicate StateFits(p: Parser, mark: Option<Special>, opening: Option<Special>) {
    && (p.state == Waiting <==> mark == None || mark.value in Stops())
    && (p.state == InContent <==> mark == Some(Message))
    && (mark == Some(Start) ==> opening == if p.state == InChannel then Some(Channel) else Some(Start))
  }

  function Next(last: Option<Special>, t: Token, marks: set<Special>): Option<Special> {
    if IsMark(t, marks) then Some(t.special) else last
  }

  lemma StateStep(p: Parser, t: Token, mark: Option<Special>, opening: Option<Special>)
    requires Shape(p) && StateFits(p, mark, opening) && (mark.Some? ==> mark.value in Marks())
    ensures StateFits(Step(p, t), Next(mark, t, Marks()), Next(opening, t, {Start, Channel}))
  {
  }

  /** The state after any stream: waiting, if no mark came yet or the last one was a stop;
      in content, if it was a message token; and after a start token in the channel or in
      the header, as a channel token has come since or not. */
  lemma {:induction false} StateIs(ts: seq<Token>)
    ensures StateFits(Run(Fresh(), ts), LastOf(ts, Marks()), LastOf(ts, {Start, Channel}))
    ensures LastOf(ts, Marks()).Some? ==> LastOf(ts, Marks()).value in Marks()
    decreases |ts|
  {
    if ts != [] {
      var before, t := ts[..|ts| - 1], ts[|ts| - 1];
      StateIs(before);
      assert ts == before + [t];
      RunSnoc(Fresh(), before, t);
      RunShape(Fresh(), before);
      StateStep(Run(Fresh(), before), t, LastOf(before, Marks()), LastOf(before, {Start, Channel}));
    }
  }

  /** current_channel and current_recipient are those of the open message in its content,
      and there are none after a stop. */
  lemma {:induction false} CurrentFollows(p: Parser, ts: seq<Token>)
    requires Shape(p) && Follows(p)
    ensures Follows(Run(p, ts))
    decreases |ts|
  {
    if ts != [] {
      StepShape(p, ts[0]);
      CurrentFollows(Step(p, ts[0]), ts[1..]);
    }
  }

  predicate Follows(p: Parser) {
    && (p.state == InChannel ==> p.current.Some? && p.currentRecipient == p.current.value.recipient)
    && (p.state == InContent && p.current.Some? ==>
          p.currentChannel == p.current.value.channel && p.currentRecipient == p.current.value.recipient)
    && (p.state == Waiting ==> p.currentChannel == None && p.currentRecipient == None)
  }

  // ---------------------------------------------------------------- the printer's side

  /** A printed message with any of the three stop tokens at its end reads back. */
  lemma StoppedMessage(m: Msg, stop: Special, enc: Encoder)
    requires Faithful(enc) && stop in {End, Return, Call}
    ensures var body := BodyTokens(m, enc);
      var q := Run(Fresh(), [Special(Start)] + body[..|body| - 1] + [Special(stop)]);
      body[|body| - 1] == Special(End) && q.state == Waiting && q.current == None && q.messages == [ReadBack(m)]
  {
    var body := BodyTokens(m, enc);
    EndsInEnd(m, enc);
    RunBody(m, Step(Fresh(), Special(Start)), enc);
    AnyStop(body, stop);
  }

  /** The stop tokens differ in nothing the parser does. */
  lemma AnyStop(body: seq<Token>, stop: Special)
    requires body != [] && body[|body| - 1] == Special(End) && stop in {End, Return, Call}
    ensures Run(Fresh(), [Special(Start)] + body[..|body| - 1] + [Special(stop)])
         == Run(Step(Fresh(), Special(Start)), body)
    ensures Run(Step(Fresh(), Special(Start)), body).state == Waiting
  {
    var open := [Special(Start)] + body[..|body| - 1];
    assert open + [Special(End)] == [Special(Start)] + body;
    assert ([Special(Start)] + body)[1..] == body;
    RunSnoc(Fresh(), open, Special(End));
    RunSnoc(Fresh(), open, Special(stop));
  }

  lemma EndsInEnd(m: Msg, enc: Encoder)
    ensures BodyTokens(m, enc) != [] && BodyTokens(m, enc)[|BodyTokens(m, enc)| - 1] == Special(End)
  {
    var tail := ContentTokens(ContentToStr(m.content), enc);
    assert tail == Pieces(ContentToStr(m.content), enc) + [Special(End)];
    assert tail[|tail| - 1] == Special(End);
    assert BodyTokens(m, enc)[|BodyTokens(m, enc)| - 1] == tail[|tail| - 1];
  }
}
