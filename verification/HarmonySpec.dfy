/**
 The Harmony printer, tokenizer and streaming parser of harmony_stub.

 Text is text here, not bytes: a text token carries the whole characters it decodes to.
 The encoder is a parameter.
 */
module HarmonySpec {
  import opened Common

  // ---------------------------------------------------------------- special tokens

  datatype Special =
    | StartOfText | EndOfText | Return | Constrain | Channel
    | Start | End | Message | Call | EndOfPrompt

  function Word(s: Special): string {
    match s
    case StartOfText => "startoftext"
    case EndOfText => "endoftext"
    case Return => "return"
    case Constrain => "constrain"
    case Channel => "channel"
    case Start => "start"
    case End => "end"
    case Message => "message"
    case Call => "call"
    case EndOfPrompt => "endofprompt"
  }

  function Spelling(s: Special): string {
    "<|" + Word(s) + "|>"
  }

  /** The alternatives of the split pattern, longest first. */
  const PATTERN: seq<Special> :=
    [StartOfText, EndOfPrompt, EndOfText, Constrain, Channel, Message, Return, Start, Call, End]

  /** The alternative that matches at the front of `text`, if one does. */
  function MatchIn(alternatives: seq<Special>, text: string): Option<Special> {
    if alternatives == [] then None
    else if Spelling(alternatives[0]) <= text then Some(alternatives[0])
    else MatchIn(alternatives[1..], text)
  }

  function MatchAt(text: string): Option<Special> {
    MatchIn(PATTERN, text)
  }

  lemma MatchInPrefix(alternatives: seq<Special>, text: string)
    ensures MatchIn(alternatives, text).Some? ==> Spelling(MatchIn(alternatives, text).value) <= text
  {
  }

  /** re.split with its one capturing group: texts and delimiters in turn. */
  function Split(pending: string, text: string): seq<string>
    decreases |text|
  {
    if text == "" then [pending]
    else
      var m := MatchAt(text);
      if m.None? then Split(pending + [text[0]], text[1..])
      else
        MatchInPrefix(PATTERN, text);
        [pending, Spelling(m.value)] + Split("", text[|Spelling(m.value)|..])
  }

  datatype Token = Special(special: Special) | Text(piece: string) | Undecodable

  type Encoder = string -> seq<Token>

  /** SPECIAL_NAMES: the special token with this spelling. */
  function NamedIn(alternatives: seq<Special>, part: string): Option<Special> {
    if alternatives == [] then None
    else if Spelling(alternatives[0]) == part then Some(alternatives[0])
    else NamedIn(alternatives[1..], part)
  }

  function Named(part: string): Option<Special> {
    NamedIn(PATTERN, part)
  }

  function TokensOfPart(part: string, enc: Encoder): seq<Token> {
    if Named(part).Some? then [Special(Named(part).value)] else if part != "" then enc(part) else []
  }

  function TokensOf(parts: seq<string>, enc: Encoder): seq<Token> {
    if parts == [] then [] else TokensOfPart(parts[0], enc) + TokensOf(parts[1..], enc)
  }

  function Tokenize(text: string, enc: Encoder): seq<Token> {
    TokensOf(Split("", text), enc)
  }

  // ---------------------------------------------------------------- messages

  datatype Content = Many(items: seq<Content>) | WithText(text: Option<string>) | Plain(s: string) | Other

  function ContentToStr(c: Content): string {
    match c
    case Many(items) => ContentsToStr(items)
    case WithText(text) => if text.Some? then text.value else ""
    case Plain(s) => s
    case Other => ""
  }

  function ContentsToStr(items: seq<Content>): string {
    if items == [] then "" else ContentToStr(items[0]) + ContentsToStr(items[1..])
  }

  /** Python's missing strings are empty here: both are false in its tests. */
  datatype Msg = Msg(role: string, content: Content, recipient: string, channel: string)

  function RoleOf(m: Msg): string {
    if m.role != "" then m.role else "user"
  }

  function Header(m: Msg): string {
    if m.recipient != "" then RoleOf(m) + " to=" + m.recipient else RoleOf(m)
  }

  function RenderOne(m: Msg): string {
    if m.channel != "" then
      Spelling(Start) + Header(m) + Spelling(Channel) + m.channel + Spelling(Message) + ContentToStr(m.content) + Spelling(End)
    else
      Spelling(Start) + Header(m) + Spelling(Message) + ContentToStr(m.content) + Spelling(End)
  }

  function Render(ms: seq<Msg>): string {
    if ms == [] then "" else RenderOne(ms[0]) + Render(ms[1..])
  }

  // ---------------------------------------------------------------- text functions

  /** An occurrence of `pat`, the leftmost one. */
  function Find(s: string, pat: string): (r: Option<nat>)
    ensures r.Some? ==> r.value + |pat| <= |s| && s[r.value..r.value + |pat|] == pat
    decreases |s|
  {
    if pat <= s then Some(0)
    else if s == "" then None
    else match Find(s[1..], pat)
      case Some(i) => Some(i + 1)
      case None => None
  }

  /** split()[0] of a text that starts with a word. */
  function FirstWord(s: string): string {
    if s == "" || IsSpace(s[0]) then "" else [s[0]] + FirstWord(s[1..])
  }

  const TO_MARK := " to="

  /** The recipient that _apply_header reads from a header. */
  function RecipientIn(header: string): Option<string> {
    var h := Strip(header);
    match Find(h, TO_MARK)
    case Some(i) => Some(Strip(h[i + |TO_MARK|..]))
    case None => None
  }

  function ChannelIn(text: string): string {
    var t := Strip(text);
    if t != "" then FirstWord(t) else "final"
  }

  // ---------------------------------------------------------------- the parser

  datatype State = Waiting | InHeader | InChannel | InContent

  datatype Parsed = Parsed(channel: Option<string>, recipient: Option<string>, content: string)

  datatype Parser = Parser(
    state: State,
    header: string,
    channel: string,
    delta: string,                    // last_content_delta
    currentChannel: Option<string>,
    currentRecipient: Option<string>,
    messages: seq<Parsed>,
    current: Option<Parsed>)

  function Fresh(): Parser {
    Parser(Waiting, "", "", "", None, None, [], None)
  }

  function Closed(p: Parser): seq<Parsed> {
    if p.current.Some? then p.messages + [p.current.value] else p.messages
  }

  function ApplyHeader(p: Parser): Parser {
    var r := RecipientIn(p.header);
    p.(currentRecipient := r,
       current := if p.current.Some? then Some(p.current.value.(recipient := r)) else None)
  }

  function SetChannel(p: Parser, ch: string): Parser {
    p.(currentChannel := Some(ch),
       current := if p.current.Some? then Some(p.current.value.(channel := Some(ch))) else None)
  }

  function OnSpecial(p: Parser, s: Special): Parser {
    match s
    case Start =>
      p.(messages := Closed(p), state := InHeader, header := "", channel := "", delta := "",
         current := Some(Parsed(None, None, "")))
    case Channel =>
      if p.state == InHeader then ApplyHeader(p).(state := InChannel, delta := "") else p
    case Message =>
      var p1 := if p.state == InChannel then SetChannel(p, ChannelIn(p.channel))
                else if p.state == InHeader then SetChannel(ApplyHeader(p), "final")
                else p;
      p1.(state := InContent, delta := "")
    case End => Close(p)
    case Return => Close(p)
    case Call => Close(p)
    case _ => p.(delta := "")
  }

  function Close(p: Parser): Parser {
    p.(messages := Closed(p), current := None, state := Waiting,
       currentChannel := None, currentRecipient := None, delta := "")
  }

  function OnText(p: Parser, piece: string): Parser {
    match p.state
    case InContent =>
      p.(delta := piece,
         current := if p.current.Some? then Some(p.current.value.(content := p.current.value.content + piece)) else None)
    case InHeader => p.(header := p.header + piece, delta := "")
    case InChannel => p.(channel := p.channel + piece, delta := "")
    case Waiting => p.(delta := "")
  }

  function Step(p: Parser, t: Token): Parser {
    match t
    case Special(s) => OnSpecial(p, s)
    case Text(piece) => OnText(p, piece)
    case Undecodable => p.(delta := "")
  }

  function Run(p: Parser, ts: seq<Token>): Parser
    decreases |ts|
  {
    if ts == [] then p else Run(Step(p, ts[0]), ts[1..])
  }
}
