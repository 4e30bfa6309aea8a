/**
 The streaming parser as an object, and what it keeps on arbitrary token streams.
 */
module HarmonyStream {
  import opened Common
  import opened HarmonySpec

  class StreamableParser {
    var state: State
    var headerBytes: string
    var channelBytes: string
    var lastDelta: string
    var currentChannel: Option<string>
    var currentRecipient: Option<string>
    var messages: seq<Parsed>
    var current: Option<Parsed>

    function View(): Parser
      reads this
    {
      Parser(state, headerBytes, channelBytes, lastDelta, currentChannel, currentRecipient, messages, current)
    }

    constructor ()
      ensures View() == Fresh()
    {
      state, headerBytes, channelBytes, lastDelta := Waiting, "", "", "";
      currentChannel, currentRecipient, messages, current := None, None, [], None;
    }

    method Process(token: Token)
      modifies this
      ensures View() == Step(old(View()), token)
    {
      var special := if token.Special? then Some(token.special) else None;
      if special == Some(Start) {
        StartMessage();
      } else if special == Some(Channel) {
        if state == InHeader {
          ApplyHeader();
          state := InChannel;
          lastDelta := "";
        }
      } else if special == Some(Message) {
        if state == InChannel {
          var text := Strip(channelBytes);
          NameChannel(if text != "" then FirstWord(text) else "final");
        } else if state == InHeader {
          ApplyHeader();
          NameChannel("final");
        }
        state := InContent;
        lastDelta := "";
      } else if special == Some(End) || special == Some(Return) || special == Some(Call) {
        EndMessage();
      } else if special.Some? || token.Undecodable? {
        lastDelta := "";
      } else {
        ProcessText(token.piece);
      }
    }

    method StartMessage()
      modifies this
      ensures View() == OnSpecial(old(View()), Start)
    {
      if current.Some? {
        messages := messages + [current.value];
      }
      state := InHeader;
      headerBytes, channelBytes, lastDelta := "", "", "";
      current := Some(Parsed(None, None, ""));
    }

    method EndMessage()
      modifies this
      ensures View() == Close(old(View()))
    {
      if current.Some? {
        messages := messages + [current.value];
        current := None;
      }
      state := Waiting;
      currentChannel, currentRecipient, lastDelta := None, None, "";
    }

    method ProcessText(text: string)
      modifies this
      ensures View() == OnText(old(View()), text)
    {
      if state == InContent {
        lastDelta := text;
        if current.Some? {
          current := Some(current.value.(content := current.value.content + text));
        }
      } else if state == InHeader {
        headerBytes := headerBytes + text;
        lastDelta := "";
      } else if state == InChannel {
        channelBytes := channelBytes + text;
        lastDelta := "";
      } else {
        lastDelta := "";
      }
    }

    method NameChannel(ch: string)
      modifies this`currentChannel, this`current
      ensures View() == SetChannel(old(View()), ch)
    {
      currentChannel := Some(ch);
      if current.Some? {
        current := Some(current.value.(channel := Some(ch)));
      }
    }

    method ApplyHeader()
      modifies this`currentRecipient, this`current
      ensures View() == HarmonySpec.ApplyHeader(old(View()))
    {
      var header := Strip(headerBytes);
      var at := Find(header, TO_MARK);
      currentRecipient := if at.Some? then Some(Strip(header[at.value + |TO_MARK|..])) else None;
      if current.Some? {
        current := Some(current.value.(recipient := currentRecipient));
      }
    }
  }

  // ---------------------------------------------------------------- printer and tokenizer loops

  method RenderMessagesToString(ms: seq<Msg>) returns (result: string)
    ensures result == Render(ms)
  {
    result := "";
    for i := 0 to |ms|
      invariant result + Render(ms[i..]) == Render(ms)
    {
      var m := ms[i];
      var role := if m.role != "" then m.role else "user";
      var header := if m.recipient != "" then role + " to=" + m.recipient else role;
      var one := if m.channel != ""
        then "<|start|>" + header + "<|channel|>" + m.channel + "<|message|>" + ContentToStr(m.content) + "<|end|>"
        else "<|start|>" + header + "<|message|>" + ContentToStr(m.content) + "<|end|>";
      SpelledOut();
      assert one == RenderOne(m);
      assert ms[i..][1..] == ms[i + 1..];
      Shift(result, one, Render(ms[i + 1..]));
      result := result + one;
    }
  }

  lemma SpelledOut()
    ensures Spelling(Start) == "<|start|>" && Spelling(Channel) == "<|channel|>"
    ensures Spelling(Message) == "<|message|>" && Spelling(End) == "<|end|>"
  {
  }

  lemma Shift(a: string, b: string, c: string)
    ensures a + b + c == a + (b + c)
  {
  }

  method TokenizeHarmonyString(text: string, enc: Encoder) returns (tokens: seq<Token>)
    ensures tokens == Tokenize(text, enc)
  {
    var parts := Split("", text);
    tokens := [];
    for i := 0 to |parts|
      invariant tokens + TokensOf(parts[i..], enc) == TokensOf(parts, enc)
    {
      var part := parts[i];
      assert parts[i..][0] == part && parts[i..][1..] == parts[i + 1..];
      ShiftTokens(tokens, TokensOfPart(part, enc), TokensOf(parts[i + 1..], enc));
      if Named(part).Some? {
        tokens := tokens + [Special(Named(part).value)];
      } else if part != "" {
        tokens := tokens + enc(part);
      }
    }
  }

  lemma ShiftTokens(a: seq<Token>, b: seq<Token>, c: seq<Token>)
    ensures a + b + c == a + (b + c) && a + [] == a
  {
  }

  // ---------------------------------------------------------------- any token stream

  /** Open message and delta as the state allows them. */
  predicate Shape(p: Parser) {
    && (p.state == Waiting ==> p.current == None)
    && (p.state == InHeader || p.state == InChannel ==> p.current.Some?)
    && (p.delta != "" ==> p.state == InContent)
  }

  function Starts(ts: seq<Token>): nat {
    if ts == [] then 0 else (if ts[0] == Special(Start) then 1 else 0) + Starts(ts[1..])
  }

  lemma StepShape(p: Parser, t: Token)
    requires Shape(p)
    ensures var q := Step(p, t);
      && Shape(q) && |Closed(q)| == |Closed(p)| + (if t == Special(Start) then 1 else 0) && p.messages <= q.messages
  {
  }

  lemma {:induction false} RunShape(p: Parser, ts: seq<Token>)
    requires Shape(p)
    ensures var q := Run(p, ts);
      && Shape(q) && |Closed(q)| == |Closed(p)| + Starts(ts) && p.messages <= q.messages
    decreases |ts|
  {
    if ts != [] {
      StepShape(p, ts[0]);
      RunShape(Step(p, ts[0]), ts[1..]);
    }
  }

  /** On every token stream: waiting means no open message, header and channel mean one;
      completed and open messages are as many as the start tokens; and messages once
      completed never change, whatever follows. */
  lemma StreamInvariants(ts: seq<Token>, us: seq<Token>)
    ensures var q := Run(Fresh(), ts);
      && (q.state == Waiting ==> q.current == None)
      && (q.state == InHeader || q.state == InChannel ==> q.current.Some?)
      && |q.messages| + (if q.current.Some? then 1 else 0) == Starts(ts)
      && q.messages <= Run(q, us).messages
  {
    RunShape(Fresh(), ts);
    RunShape(Run(Fresh(), ts), us);
  }

  // ---------------------------------------------------------------- deltas and contents

  predicate Opens(p: Parser, k: nat) {
    p.current.Some? && |p.messages| == k
  }

  /** The deltas a reader collects for message k, reading once after every token. */
  function Collected(p: Parser, ts: seq<Token>, k: nat): string
    decreases |ts|
  {
    if ts == [] then ""
    else
      var q := Step(p, ts[0]);
      (if Opens(q, k) then q.delta else "") + Collected(q, ts[1..], k)
  }

  /** A channel token inside content is ignored, and the last delta with it: the reader
      sees that delta a second time. */
  predicate Repeats(p: Parser, t: Token, k: nat) {
    t == Special(Channel) && p.state == InContent && Opens(p, k) && p.delta != ""
  }

  predicate NeverRepeats(p: Parser, ts: seq<Token>, k: nat)
    decreases |ts|
  {
    ts == [] || (!Repeats(p, ts[0], k) && NeverRepeats(Step(p, ts[0]), ts[1..], k))
  }

  function ContentAt(p: Parser, k: nat): string {
    if k < |Closed(p)| then Closed(p)[k].content else ""
  }

  lemma StepContent(p: Parser, t: Token, k: nat)
    requires Shape(p)
    ensures var q := Step(p, t);
      && Shape(q)
      && (Repeats(p, t, k) ==> ContentAt(q, k) == ContentAt(p, k) && Delta(p, t, k) != "")
      && (!Repeats(p, t, k) ==> ContentAt(q, k) == ContentAt(p, k) + Delta(p, t, k))
  {
    var q := Step(p, t);
    assert Closed(p) == if p.current.Some? then p.messages + [p.current.value] else p.messages;
    if t == Special(Start) {
      assert Closed(q)[..|Closed(p)|] == Closed(p);
      assert ContentAt(p, |Closed(p)|) == "";
    }
    assert ContentAt(p, k) + "" == ContentAt(p, k);
  }

  /** What message k gains in one step, and what its reader collects. */
  function Delta(p: Parser, t: Token, k: nat): string {
    if Opens(Step(p, t), k) then Step(p, t).delta else ""
  }

  lemma CollectedFirst(p: Parser, ts: seq<Token>, k: nat)
    requires ts != []
    ensures Collected(p, ts, k) == Delta(p, ts[0], k) + Collected(Step(p, ts[0]), ts[1..], k)
  {
  }

  lemma Shift3(a: string, b: string, c: string)
    ensures a + b + c == a + (b + c) && a + "" == a
  {
  }

  /** Content and collection grow apart by exactly what is read twice. */
  lemma {:induction false} CollectedLength(p: Parser, ts: seq<Token>, k: nat)
    requires Shape(p)
    ensures |ContentAt(Run(p, ts), k)| <= |ContentAt(p, k)| + |Collected(p, ts, k)|
    ensures |ContentAt(Run(p, ts), k)| == |ContentAt(p, k)| + |Collected(p, ts, k)| <==> NeverRepeats(p, ts, k)
    ensures NeverRepeats(p, ts, k) ==> ContentAt(Run(p, ts), k) == ContentAt(p, k) + Collected(p, ts, k)
    decreases |ts|
  {
    if ts == [] {
      Shift3(ContentAt(p, k), "", "");
    } else {
      var q := Step(p, ts[0]);
      StepContent(p, ts[0], k);
      CollectedLength(q, ts[1..], k);
      CollectedFirst(p, ts, k);
      Shift3(ContentAt(p, k), Delta(p, ts[0], k), Collected(q, ts[1..], k));
    }
  }

  /** A reader that appends last_content_delta after every token gets each message's
      content, if and only if no channel token follows a delta inside that content. */
  lemma DeltasIff(ts: seq<Token>, k: nat)
    requires k < |Closed(Run(Fresh(), ts))|
    ensures Collected(Fresh(), ts, k) == Closed(Run(Fresh(), ts))[k].content <==> NeverRepeats(Fresh(), ts, k)
  {
    CollectedLength(Fresh(), ts, k);
    assert ContentAt(Fresh(), k) == "";
    assert "" + Collected(Fresh(), ts, k) == Collected(Fresh(), ts, k);
  }

  /** The failing case: "a" is content once and collected twice. */
  lemma StaleDelta()
    ensures var ts := [Special(Start), Special(Message), Text("a"), Special(Channel)];
      && Closed(Run(Fresh(), ts)) == [Parsed(Some("final"), None, "a")]
      && Collected(Fresh(), ts, 0) != "a"
  {
    var ts := [Special(Start), Special(Message), Text("a"), Special(Channel)];
    var p2 := Step(Step(Fresh(), ts[0]), ts[1]);
    assert p2.state == InContent && p2.current == Some(Parsed(Some("final"), None, "")) && p2.messages == [];
    var p3 := Step(p2, ts[2]);
    assert "" + "a" == "a";
    assert p3.current == Some(Parsed(Some("final"), None, "a"));
    assert p3.state == InContent && p3.delta == "a" && p3.messages == [];
    assert Repeats(p3, ts[3], 0);
    assert ts[1..][1..] == [ts[2], ts[3]] && [ts[2], ts[3]][1..] == [ts[3]] && [ts[3]][1..] == [];
    assert Step(p3, ts[3]) == p3;
    assert Run(p3, [ts[3]]) == p3;
    assert Run(p2, [ts[2], ts[3]]) == p3;
    assert !NeverRepeats(p3, [ts[3]], 0);
    DeltasIff(ts, 0);
  }
}
