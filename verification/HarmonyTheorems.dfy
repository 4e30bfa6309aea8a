/**
 The parser reads back what the printer wrote.
 */
module HarmonyTheorems {
  import opened Common
  import opened HarmonySpec

  // ---------------------------------------------------------------- the split is unambiguous

  lemma WordLetters(s: Special)
    ensures forall c :: c in Word(s) ==> 'a' <= c <= 'z'
  {
  }

  /** Length and first letter tell the words apart. */
  lemma WordsDiffer(s: Special, t: Special)
    requires |Word(s)| == |Word(t)| && Word(s)[0] == Word(t)[0]
    ensures s == t
  {
  }

  /** What the delimiter spellings have in common: '<' stands first only and '>' last
      only, so none is a proper prefix of another. */
  lemma SpellingShape(s: Special)
    ensures var d := Spelling(s);
      && 5 <= |d| && d[0] == '<' && d[|d| - 1] == '>' && d[2] == Word(s)[0]
      && (forall i :: 0 < i < |d| ==> d[i] != '<')
      && (forall i :: 0 <= i < |d| - 1 ==> d[i] != '>')
      && (forall i :: 0 <= i < |d| ==> !IsSpace(d[i]))
  {
    WordLetters(s);
    var d := Spelling(s);
    assert |Word(s)| > 0;
    forall i | 2 <= i < |d| - 2 ensures 'a' <= d[i] <= 'z' {
      assert d[i] == Word(s)[i - 2];
    }
  }

  lemma PrefixFree(s: Special, t: Special, text: string)
    requires Spelling(s) <= text && Spelling(t) <= text
    ensures s == t
  {
    SpellingShape(s);
    SpellingShape(t);
    var a, b := Spelling(s), Spelling(t);
    assert forall i :: 0 <= i < |a| && i < |b| ==> a[i] == text[i] == b[i];
    assert a[2] == text[2] == b[2];
    WordsDiffer(s, t);
  }

  lemma {:induction false} MatchInFinds(alternatives: seq<Special>, s: Special, text: string)
    requires Spelling(s) <= text && s in alternatives
    ensures MatchIn(alternatives, text) == Some(s)
  {
    if Spelling(alternatives[0]) <= text {
      PrefixFree(alternatives[0], s, text);
    } else {
      MatchInFinds(alternatives[1..], s, text);
    }
  }

  /** At a delimiter the pattern matches that delimiter, whatever its order. */
  lemma MatchAtDelimiter(s: Special, rest: string)
    ensures MatchAt(Spelling(s) + rest) == Some(s)
  {
    assert s in PATTERN;
    MatchInFinds(PATTERN, s, Spelling(s) + rest);
  }

  /** No special token is spelled anywhere in the text. */
  predicate SpecialFree(f: string) {
    forall i :: 0 <= i < |f| ==> MatchAt(f[i..]) == None
  }

  lemma {:induction false} MatchInNone(alternatives: seq<Special>, s: Special, text: string)
    requires MatchIn(alternatives, text) == None && s in alternatives
    ensures !(Spelling(s) <= text)
  {
    if s != alternatives[0] {
      MatchInNone(alternatives[1..], s, text);
    }
  }

  lemma InPattern(s: Special)
    ensures s in PATTERN
  {
    assert PATTERN[0] == StartOfText && PATTERN[1] == EndOfPrompt && PATTERN[2] == EndOfText && PATTERN[3] == Constrain;
    assert PATTERN[4] == Channel && PATTERN[5] == Message && PATTERN[6] == Return && PATTERN[7] == Start;
    assert PATTERN[8] == Call && PATTERN[9] == End;
  }

  /** What matches inside a text, ahead of a delimiter, is inside the text: reaching
      over would put the '<' of the delimiter after the first character of the match. */
  lemma MatchStaysInside(f: string, d: Special, rest: string, s: Special)
    requires f != "" && Spelling(s) <= f + Spelling(d) + rest
    ensures Spelling(s) <= f
  {
    var text := f + Spelling(d) + rest;
    var m := Spelling(s);
    SpellingShape(s);
    SpellingShape(d);
    assert text[|f|] == '<';
    assert forall k :: 0 <= k < |m| ==> m[k] == text[k];
    assert text[..|m|] == f[..|m|];
  }

  lemma NoMatchInside(f: string, d: Special, rest: string)
    requires f != "" && MatchAt(f) == None
    ensures MatchAt(f + Spelling(d) + rest) == None
  {
    var text := f + Spelling(d) + rest;
    if MatchAt(text).Some? {
      var s := MatchAt(text).value;
      MatchInPrefix(PATTERN, text);
      MatchStaysInside(f, d, rest, s);
      InPattern(s);
      MatchInNone(PATTERN, s, f);
    }
  }

  lemma SplitAtDelimiter(pending: string, d: Special, rest: string)
    ensures Split(pending, Spelling(d) + rest) == [pending, Spelling(d)] + Split("", rest)
  {
    MatchAtDelimiter(d, rest);
    SplitStart(pending, Spelling(d) + rest, d, rest);
  }

  lemma SplitStart(pending: string, text: string, d: Special, rest: string)
    requires text == Spelling(d) + rest && MatchAt(text) == Some(d)
    ensures Split(pending, text) == [pending, Spelling(d)] + Split("", rest)
  {
    assert text[|Spelling(d)|..] == rest;
  }

  lemma SpecialFreeTail(f: string)
    requires SpecialFree(f) && f != ""
    ensures SpecialFree(f[1..]) && MatchAt(f) == None
  {
    assert f[0..] == f;
    forall i | 0 <= i < |f[1..]| ensures MatchAt(f[1..][i..]) == None {
      assert f[1..][i..] == f[i + 1..];
    }
  }

  lemma SplitStep(pending: string, text: string)
    requires text != "" && MatchAt(text) == None
    ensures Split(pending, text) == Split(pending + [text[0]], text[1..])
  {
  }

  /** The same, one character at a time. */
  predicate Clean(f: string) {
    f == "" || (MatchAt(f) == None && Clean(f[1..]))
  }

  lemma {:induction false} FreeIsClean(f: string)
    requires SpecialFree(f)
    ensures Clean(f)
  {
    if f != "" {
      SpecialFreeTail(f);
      FreeIsClean(f[1..]);
    }
  }

  lemma SplitInside(pending: string, f: string, d: Special, rest: string)
    requires f != "" && MatchAt(f) == None
    ensures Split(pending, f + Spelling(d) + rest) == Split(pending + [f[0]], f[1..] + Spelling(d) + rest)
  {
    NoMatchInside(f, d, rest);
    var text := f + Spelling(d) + rest;
    SplitStep(pending, text);
    assert text[0] == f[0] && text[1..] == f[1..] + Spelling(d) + rest;
  }

  lemma {:induction false} SplitClean(pending: string, f: string, d: Special, rest: string)
    requires Clean(f)
    ensures Split(pending, f + Spelling(d) + rest) == [pending + f, Spelling(d)] + Split("", rest)
    decreases |f|
  {
    Uncons(pending, f, Spelling(d), rest);
    if f == "" {
      SplitAtDelimiter(pending, d, rest);
    } else {
      SplitInside(pending, f, d, rest);
      SplitClean(pending + [f[0]], f[1..], d, rest);
    }
  }

  lemma Uncons(pending: string, f: string, d: string, rest: string)
    ensures f == "" ==> f + d + rest == d + rest && pending + f == pending
    ensures f != "" ==> pending + [f[0]] + f[1..] == pending + f
  {
  }

  /** A special-free text and the delimiter after it are split off as they are. */
  lemma SplitField(pending: string, f: string, d: Special, rest: string)
    requires SpecialFree(f)
    ensures Split(pending, f + Spelling(d) + rest) == [pending + f, Spelling(d)] + Split("", rest)
  {
    FreeIsClean(f);
    SplitClean(pending, f, d, rest);
  }

  lemma {:induction false} NamedInFinds(alternatives: seq<Special>, s: Special)
    requires s in alternatives
    ensures NamedIn(alternatives, Spelling(s)) == Some(s)
  {
    if Spelling(alternatives[0]) == Spelling(s) {
      PrefixFree(alternatives[0], s, Spelling(s));
    } else {
      NamedInFinds(alternatives[1..], s);
    }
  }

  lemma {:induction false} NamedInNone(alternatives: seq<Special>, part: string)
    requires MatchIn(alternatives, part) == None
    ensures NamedIn(alternatives, part) == None
  {
    if alternatives != [] {
      NamedInNone(alternatives[1..], part);
    }
  }

  lemma {:induction false} NamedSpells(alternatives: seq<Special>, part: string)
    ensures NamedIn(alternatives, part).Some? ==> Spelling(NamedIn(alternatives, part).value) == part
  {
    if alternatives != [] {
      NamedSpells(alternatives[1..], part);
    }
  }

  /** The tokens of one text between delimiters. */
  function Pieces(f: string, enc: Encoder): seq<Token> {
    if f == "" then [] else enc(f)
  }

  lemma FieldPart(f: string, enc: Encoder)
    requires SpecialFree(f)
    ensures TokensOfPart(f, enc) == Pieces(f, enc)
  {
    if f != "" {
      assert f[0..] == f;
      NamedInNone(PATTERN, f);
    } else {
      NamedSpells(PATTERN, f);
    }
  }

  lemma DelimiterPart(d: Special, enc: Encoder)
    ensures TokensOfPart(Spelling(d), enc) == [Special(d)]
  {
    InPattern(d);
    NamedInFinds(PATTERN, d);
  }

  lemma TokensOfTwo(a: string, b: string, parts: seq<string>, enc: Encoder)
    ensures TokensOf([a, b] + parts, enc) == TokensOfPart(a, enc) + TokensOfPart(b, enc) + TokensOf(parts, enc)
  {
    assert ([a, b] + parts)[1..] == [b] + parts;
    assert ([b] + parts)[1..] == parts;
  }

  /** A special-free text and its delimiter tokenize on their own. */
  lemma TokenizeField(f: string, d: Special, rest: string, enc: Encoder)
    requires SpecialFree(f)
    ensures Tokenize(f + Spelling(d) + rest, enc) == Pieces(f, enc) + [Special(d)] + Tokenize(rest, enc)
  {
    SplitField("", f, d, rest);
    assert "" + f == f;
    TokensOfTwo(f, Spelling(d), Split("", rest), enc);
    FieldPart(f, enc);
    DelimiterPart(d, enc);
  }

  // ---------------------------------------------------------------- running the parser

  predicate AllText(ts: seq<Token>) {
    forall i :: 0 <= i < |ts| ==> ts[i].Text?
  }

  function Joined(ts: seq<Token>): string
    requires AllText(ts)
  {
    if ts == [] then "" else ts[0].piece + Joined(ts[1..])
  }

  /** What the tokenizer library promises: text tokens that spell their input. */
  ghost predicate Faithful(enc: Encoder) {
    forall s: string :: AllText(enc(s)) && Joined(enc(s)) == s
  }

  lemma {:induction false} RunAppend(p: Parser, ts: seq<Token>, us: seq<Token>)
    ensures Run(p, ts + us) == Run(Run(p, ts), us)
    decreases |ts|
  {
    if ts == [] {
      assert ts + us == us;
    } else {
      assert (ts + us)[1..] == ts[1..] + us;
      RunAppend(Step(p, ts[0]), ts[1..], us);
    }
  }

  /** Text goes to the buffer of the state, piece by piece or at once. */
  function Buffered(p: Parser, f: string): Parser {
    match p.state
    case InContent =>
      p.(current := if p.current.Some? then Some(p.current.value.(content := p.current.value.content + f)) else None)
    case InHeader => p.(header := p.header + f)
    case InChannel => p.(channel := p.channel + f)
    case Waiting => p
  }

  lemma BufferedAppend(p: Parser, f: string, g: string)
    ensures Buffered(Buffered(p, f), g) == Buffered(p, f + g)
  {
    if p.current.Some? {
      assert p.current.value.content + f + g == p.current.value.content + (f + g);
    }
    assert p.header + f + g == p.header + (f + g);
    assert p.channel + f + g == p.channel + (f + g);
  }

  /** However a text is cut into tokens, the parser ends up the same, last delta aside. */
  lemma {:induction false} RunText(p: Parser, ts: seq<Token>)
    requires AllText(ts)
    ensures Run(p, ts).(delta := "") == Buffered(p, Joined(ts)).(delta := "")
    decreases |ts|
  {
    if ts == [] {
      if p.current.Some? {
        assert p.current.value.content + "" == p.current.value.content;
      }
      assert p.header + "" == p.header && p.channel + "" == p.channel;
    } else {
      var q := Step(p, ts[0]);
      RunText(q, ts[1..]);
      BufferedAppend(p, ts[0].piece, Joined(ts[1..]));
      assert q.(delta := "") == Buffered(p, ts[0].piece).(delta := "");
      assert Buffered(q, Joined(ts[1..])).(delta := "") == Buffered(Buffered(p, ts[0].piece), Joined(ts[1..])).(delta := "");
    }
  }

  /** The delimiters that read the state's buffer forget the last delta. */
  predicate Reads(p: Parser, d: Special) {
    (d == Channel && p.state == InHeader) || d == Message || d == End
  }

  lemma RunField(p: Parser, f: string, d: Special, enc: Encoder, ts: seq<Token>)
    requires Faithful(enc) && Reads(p, d)
    ensures Run(p, Pieces(f, enc) + [Special(d)] + ts) == Run(OnSpecial(Buffered(p, f), d), ts)
  {
    var us := Pieces(f, enc);
    assert AllText(us) && Joined(us) == f;
    RunText(p, us);
    assert us + [Special(d)] + ts == us + ([Special(d)] + ts);
    RunAppend(p, us, [Special(d)] + ts);
    var q := Run(p, us);
    assert ([Special(d)] + ts)[1..] == ts;
    assert OnSpecial(q, d) == OnSpecial(q.(delta := ""), d);
    assert OnSpecial(Buffered(p, f), d) == OnSpecial(Buffered(p, f).(delta := ""), d);
  }

  // ---------------------------------------------------------------- one message

  /** What the parser makes of a printed message. */
  function ReadBack(m: Msg): Parsed {
    Parsed(Some(if m.channel != "" then ChannelIn(m.channel) else "final"), RecipientIn(Header(m)), ContentToStr(m.content))
  }

  function ContentTokens(content: string, enc: Encoder): seq<Token> {
    Pieces(content, enc) + [Special(End)] + []
  }

  function BodyTokens(m: Msg, enc: Encoder): seq<Token> {
    var tail := ContentTokens(ContentToStr(m.content), enc);
    if m.channel != "" then
      Pieces(Header(m), enc) + [Special(Channel)] + (Pieces(m.channel, enc) + [Special(Message)] + tail)
    else
      Pieces(Header(m), enc) + [Special(Message)] + tail
  }

  lemma RunContent(p: Parser, content: string, c: Parsed, enc: Encoder)
    requires Faithful(enc) && p.state == InContent && p.current == Some(c) && c.content == ""
    ensures var q := Run(p, ContentTokens(content, enc));
      q.current == None && q.messages == p.messages + [c.(content := content)]
  {
    RunField(p, content, End, enc, []);
    assert "" + content == content;
  }

  /** After the header, with a channel to read. */
  lemma RunChannel(p: Parser, ch: string, r: Option<string>, content: string, enc: Encoder)
    requires Faithful(enc) && p.state == InChannel && p.channel == "" && p.current == Some(Parsed(None, r, ""))
    ensures var q := Run(p, Pieces(ch, enc) + [Special(Message)] + ContentTokens(content, enc));
      q.current == None && q.messages == p.messages + [Parsed(Some(ChannelIn(ch)), r, content)]
  {
    RunField(p, ch, Message, enc, ContentTokens(content, enc));
    assert "" + ch == ch;
    RunContent(OnSpecial(Buffered(p, ch), Message), content, Parsed(Some(ChannelIn(ch)), r, ""), enc);
  }

  lemma RunBody(m: Msg, p: Parser, enc: Encoder)
    requires Faithful(enc)
    requires p.state == InHeader && p.header == "" && p.channel == "" && p.current == Some(Parsed(None, None, ""))
    ensures var q := Run(p, BodyTokens(m, enc));
      q.current == None && q.messages == p.messages + [ReadBack(m)]
  {
    var content := ContentToStr(m.content);
    var r := RecipientIn(Header(m));
    var p1 := Buffered(p, Header(m));
    assert p1.header == Header(m);
    if m.channel != "" {
      RunField(p, Header(m), Channel, enc, Pieces(m.channel, enc) + [Special(Message)] + ContentTokens(content, enc));
      RunChannel(OnSpecial(p1, Channel), m.channel, r, content, enc);
    } else {
      RunField(p, Header(m), Message, enc, ContentTokens(content, enc));
      RunContent(OnSpecial(p1, Message), content, Parsed(Some("final"), r, ""), enc);
    }
  }

  // ---------------------------------------------------------------- a whole conversation

  /** No field of the message spells a special token. */
  predicate PlainFields(m: Msg) {
    SpecialFree(RoleOf(m)) && SpecialFree(m.recipient) && SpecialFree(m.channel) && SpecialFree(ContentToStr(m.content))
  }

  lemma NoMatchWithoutLess(text: string)
    requires text != "" && text[0] != '<'
    ensures MatchAt(text) == None
  {
    MatchInPrefix(PATTERN, text);
    if MatchAt(text).Some? {
      SpellingShape(MatchAt(text).value);
    }
  }

  /** A match cannot reach over the space that follows. */
  lemma NoMatchBeforeTo(f: string, rest: string)
    requires f != "" && MatchAt(f) == None
    ensures MatchAt(f + TO_MARK + rest) == None
  {
    var text := f + TO_MARK + rest;
    if MatchAt(text).Some? {
      var s := MatchAt(text).value;
      MatchInPrefix(PATTERN, text);
      SpacelessPrefix(f, rest, s);
      InPattern(s);
      MatchInNone(PATTERN, s, f);
    }
  }

  lemma SpacelessPrefix(f: string, rest: string, s: Special)
    requires Spelling(s) <= f + TO_MARK + rest
    ensures Spelling(s) <= f
  {
    var text := f + TO_MARK + rest;
    var m := Spelling(s);
    SpellingShape(s);
    assert text[|f|] == ' ';
    assert forall k :: 0 <= k < |m| ==> m[k] == text[k];
    assert text[..|m|] == f[..|m|];
  }

  lemma HeaderMatch(a: string, b: string, i: nat)
    requires SpecialFree(a) && SpecialFree(b) && i < |a + TO_MARK + b|
    ensures MatchAt((a + TO_MARK + b)[i..]) == None
  {
    var h := a + TO_MARK + b;
    if i < |a| {
      assert h[i..] == a[i..] + TO_MARK + b;
      NoMatchBeforeTo(a[i..], b);
    } else if i < |a| + |TO_MARK| {
      assert h[i..][0] == TO_MARK[i - |a|];
      NoMatchWithoutLess(h[i..]);
    } else {
      assert h[i..] == b[i - |a| - |TO_MARK|..];
    }
  }

  lemma HeaderFree(m: Msg)
    requires PlainFields(m)
    ensures SpecialFree(Header(m))
  {
    if m.recipient != "" {
      forall i | 0 <= i < |Header(m)| ensures MatchAt(Header(m)[i..]) == None {
        HeaderMatch(RoleOf(m), m.recipient, i);
      }
    }
  }

  lemma Regroup(a: seq<Token>, b: seq<Token>, c: seq<Token>)
    ensures a + b + c == a + (b + c)
  {
  }

  lemma TokenizeContent(content: string, rest: string, enc: Encoder)
    requires SpecialFree(content)
    ensures Tokenize(content + Spelling(End) + rest, enc) == ContentTokens(content, enc) + Tokenize(rest, enc)
  {
    TokenizeField(content, End, rest, enc);
  }

  lemma TokenizeThen(f: string, d: Special, text: string, ts: seq<Token>, us: seq<Token>, enc: Encoder)
    requires SpecialFree(f) && Tokenize(text, enc) == ts + us
    ensures Tokenize(f + Spelling(d) + text, enc) == Pieces(f, enc) + [Special(d)] + ts + us
  {
    TokenizeField(f, d, text, enc);
    Regroup(Pieces(f, enc) + [Special(d)], ts, us);
  }

  /** What follows the opening delimiter of a printed message. */
  function AfterStart(m: Msg, rest: string): string {
    var tail := ContentToStr(m.content) + Spelling(End) + rest;
    if m.channel != "" then Header(m) + Spelling(Channel) + (m.channel + Spelling(Message) + tail)
    else Header(m) + Spelling(Message) + tail
  }

  lemma TokenizeBody(m: Msg, rest: string, enc: Encoder)
    requires PlainFields(m)
    ensures Tokenize(AfterStart(m, rest), enc) == BodyTokens(m, enc) + Tokenize(rest, enc)
  {
    HeaderFree(m);
    var c := ContentToStr(m.content);
    var tail := c + Spelling(End) + rest;
    var us := Tokenize(rest, enc);
    TokenizeContent(c, rest, enc);
    if m.channel != "" {
      var ts := Pieces(m.channel, enc) + [Special(Message)] + ContentTokens(c, enc);
      TokenizeThen(m.channel, Message, tail, ContentTokens(c, enc), us, enc);
      TokenizeThen(Header(m), Channel, m.channel + Spelling(Message) + tail, ts, us, enc);
    } else {
      TokenizeThen(Header(m), Message, tail, ContentTokens(c, enc), us, enc);
    }
  }

  lemma Nest4(a: string, b: string, c: string, d: string, e: string, r: string)
    ensures a + b + c + d + e + r == a + (b + c + (d + e + r))
  {
  }

  lemma Nest6(a: string, b: string, c: string, d: string, e: string, f: string, g: string, r: string)
    ensures a + b + c + d + e + f + g + r == a + (b + c + (d + e + (f + g + r)))
  {
  }

  lemma RenderNested(m: Msg, rest: string)
    ensures RenderOne(m) + rest == Spelling(Start) + AfterStart(m, rest)
  {
    var c := ContentToStr(m.content);
    Nest6(Spelling(Start), Header(m), Spelling(Channel), m.channel, Spelling(Message), c, Spelling(End), rest);
    Nest4(Spelling(Start), Header(m), Spelling(Message), c, Spelling(End), rest);
  }

  lemma TokenizeStart(text: string, enc: Encoder)
    ensures Tokenize(Spelling(Start) + text, enc) == [Special(Start)] + Tokenize(text, enc)
  {
    TokenizeField("", Start, text, enc);
    assert "" + Spelling(Start) == Spelling(Start);
    assert Pieces("", enc) + [Special(Start)] == [Special(Start)];
  }

  lemma TokenizeMessage(m: Msg, rest: string, enc: Encoder)
    requires PlainFields(m)
    ensures Tokenize(RenderOne(m) + rest, enc) == [Special(Start)] + (BodyTokens(m, enc) + Tokenize(rest, enc))
  {
    TokenizeBody(m, rest, enc);
    TokenizeStart(AfterStart(m, rest), enc);
    RenderNested(m, rest);
  }

  function AllReadBack(ms: seq<Msg>): seq<Parsed> {
    if ms == [] then [] else [ReadBack(ms[0])] + AllReadBack(ms[1..])
  }

  lemma RenderFirst(ms: seq<Msg>, rest: string)
    requires ms != []
    ensures Render(ms) + rest == RenderOne(ms[0]) + (Render(ms[1..]) + rest)
  {
    var a, b := RenderOne(ms[0]), Render(ms[1..]);
    assert a + b + rest == a + (b + rest);
  }

  predicate AllPlain(ms: seq<Msg>) {
    ms == [] || (PlainFields(ms[0]) && AllPlain(ms[1..]))
  }

  /** The parser after one message, and after all. */
  function AfterOne(m: Msg, p: Parser, enc: Encoder): Parser {
    Run(OnSpecial(p, Start), BodyTokens(m, enc))
  }

  function AfterAll(ms: seq<Msg>, p: Parser, enc: Encoder): Parser
    decreases |ms|
  {
    if ms == [] then p else AfterAll(ms[1..], AfterOne(ms[0], p, enc), enc)
  }

  lemma AfterOneMessages(m: Msg, p: Parser, enc: Encoder)
    requires Faithful(enc) && p.current == None
    ensures AfterOne(m, p, enc).current == None && AfterOne(m, p, enc).messages == p.messages + [ReadBack(m)]
  {
    RunBody(m, OnSpecial(p, Start), enc);
  }

  lemma Join3(a: seq<Parsed>, b: seq<Parsed>, c: seq<Parsed>)
    ensures a + b + c == a + (b + c)
  {
  }

  lemma {:induction false} AfterAllMessages(ms: seq<Msg>, p: Parser, enc: Encoder)
    requires Faithful(enc) && p.current == None
    ensures AfterAll(ms, p, enc).current == None && AfterAll(ms, p, enc).messages == p.messages + AllReadBack(ms)
    decreases |ms|
  {
    if ms != [] {
      AfterOneMessages(ms[0], p, enc);
      AfterAllMessages(ms[1..], AfterOne(ms[0], p, enc), enc);
      Join3(p.messages, [ReadBack(ms[0])], AllReadBack(ms[1..]));
    }
  }

  lemma RunFirst(ms: seq<Msg>, rest: string, p: Parser, enc: Encoder)
    requires ms != [] && PlainFields(ms[0])
    ensures Run(p, Tokenize(Render(ms) + rest, enc)) ==
            Run(AfterOne(ms[0], p, enc), Tokenize(Render(ms[1..]) + rest, enc))
  {
    var ts := Tokenize(Render(ms[1..]) + rest, enc);
    var body := BodyTokens(ms[0], enc);
    RenderFirst(ms, rest);
    TokenizeMessage(ms[0], Render(ms[1..]) + rest, enc);
    assert ([Special(Start)] + (body + ts))[1..] == body + ts;
    RunAppend(OnSpecial(p, Start), body, ts);
  }

  /** The messages of a printed conversation are read one by one, whatever follows. */
  lemma {:induction false} RunRendered(ms: seq<Msg>, rest: string, p: Parser, enc: Encoder)
    requires AllPlain(ms)
    ensures Run(p, Tokenize(Render(ms) + rest, enc)) == Run(AfterAll(ms, p, enc), Tokenize(rest, enc))
    decreases |ms|
  {
    if ms == [] {
      assert "" + rest == rest;
    } else {
      RunFirst(ms, rest, p, enc);
      RunRendered(ms[1..], rest, AfterOne(ms[0], p, enc), enc);
    }
  }
}
