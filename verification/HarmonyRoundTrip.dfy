/**
 The round trip of the Harmony format, with its exact condition, and what the streaming
 parser keeps on arbitrary token streams.
 */
module HarmonyRoundTrip {
  import opened Common
  import opened HarmonySpec
  import opened HarmonyTheorems
  import F = HarmonyFields

  /** What a reader should get back; a message without a channel is final. */
  function Meant(m: Msg): Parsed {
    Parsed(Some(if m.channel != "" then m.channel else "final"),
           if m.recipient != "" then Some(m.recipient) else None,
           ContentToStr(m.content))
  }

  predicate Stable(m: Msg) {
    F.StableRecipient(RoleOf(m), m.recipient) && F.Spaceless(m.channel)
  }

  lemma ReadBackIff(m: Msg)
    ensures ReadBack(m) == Meant(m) <==> Stable(m)
  {
    if m.recipient != "" {
      F.RecipientIff(RoleOf(m), m.recipient);
    } else {
      F.NoRecipient(RoleOf(m));
    }
    if m.channel != "" {
      F.ChannelIff(m.channel);
    }
  }

  function AllMeant(ms: seq<Msg>): seq<Parsed> {
    if ms == [] then [] else [Meant(ms[0])] + AllMeant(ms[1..])
  }

  predicate AllStable(ms: seq<Msg>) {
    ms == [] || (Stable(ms[0]) && AllStable(ms[1..]))
  }

  lemma {:induction false} AllReadBackIff(ms: seq<Msg>)
    ensures |AllReadBack(ms)| == |AllMeant(ms)| == |ms|
    ensures AllReadBack(ms) == AllMeant(ms) <==> AllStable(ms)
  {
    if ms != [] {
      ReadBackIff(ms[0]);
      AllReadBackIff(ms[1..]);
      var a, b := AllReadBack(ms), AllMeant(ms);
      assert a[1..] == AllReadBack(ms[1..]) && b[1..] == AllMeant(ms[1..]);
      assert a == [a[0]] + a[1..] && b == [b[0]] + b[1..];
    }
  }

  /** The round trip: printing, tokenizing and parsing gives back every recipient,
      channel and content, if and only if each role and recipient is stable and no
      channel holds white space.  The fields spell no special token; the encoder may cut
      the texts between delimiters as it likes. */
  lemma RoundTrip(ms: seq<Msg>, enc: Encoder)
    requires Faithful(enc) && AllPlain(ms)
    ensures var q := Run(Fresh(), Tokenize(Render(ms), enc));
      && |q.messages| == |ms| && q.current == None
      && (q.messages == AllMeant(ms) <==> AllStable(ms))
  {
    RunRendered(ms, "", Fresh(), enc);
    assert Render(ms) + "" == Render(ms);
    EmptyTokens(enc);
    AfterAllMessages(ms, Fresh(), enc);
    assert Fresh().messages + AllReadBack(ms) == AllReadBack(ms);
    AllReadBackIff(ms);
  }

  lemma EmptyTokens(enc: Encoder)
    ensures Tokenize("", enc) == []
  {
    assert Split("", "") == [""];
    FieldPart("", enc);
    assert TokensOf([""], enc) == TokensOfPart("", enc) + TokensOf([], enc);
  }

  lemma OpeningTokens(f: string, enc: Encoder)
    requires f != "" && forall i :: 0 <= i < |f| ==> f[i] != '<'
    ensures Tokenize(Spelling(Start) + f, enc) == [Special(Start)] + enc(f)
  {
    TokenizeStart(f, enc);
    TextTokens(f, enc);
  }

  lemma RunOpening(p: Parser, ts: seq<Token>)
    requires AllText(ts) && p.current == None
    ensures var q := Run(p, [Special(Start)] + ts);
      q.messages == p.messages && q.state == InHeader && q.header == Joined(ts) && q.current == Some(Parsed(None, None, ""))
  {
    assert ([Special(Start)] + ts)[1..] == ts;
    RunText(OnSpecial(p, Start), ts);
    assert "" + Joined(ts) == Joined(ts);
  }

  /** With a prompt appended that opens a message, as "<|start|>assistant" does, the same
      messages come back and one more is open, in its header. */
  lemma PromptRoundTrip(ms: seq<Msg>, prompt: string, enc: Encoder)
    requires Faithful(enc) && AllPlain(ms) && AllStable(ms)
    requires prompt != "" && forall i :: 0 <= i < |prompt| ==> prompt[i] != '<'
    ensures var q := Run(Fresh(), Tokenize(Render(ms) + (Spelling(Start) + prompt), enc));
      && q.messages == AllMeant(ms) && q.state == InHeader && q.header == prompt
      && q.current == Some(Parsed(None, None, ""))
  {
    var p := AfterAll(ms, Fresh(), enc);
    RunRendered(ms, Spelling(Start) + prompt, Fresh(), enc);
    AfterAllMessages(ms, Fresh(), enc);
    assert Fresh().messages + AllReadBack(ms) == AllReadBack(ms);
    AllReadBackIff(ms);
    OpeningTokens(prompt, enc);
    RunOpening(p, enc(prompt));
  }

  lemma {:induction false} SplitPlain(pending: string, f: string)
    requires SpecialFree(f)
    ensures Split(pending, f) == [pending + f]
    decreases |f|
  {
    if f == "" {
      assert pending + f == pending;
    } else {
      SpecialFreeTail(f);
      SplitPlain(pending + [f[0]], f[1..]);
      assert pending + [f[0]] + f[1..] == pending + f;
    }
  }

  /** Text without any '<' is one text part. */
  lemma TextTokens(f: string, enc: Encoder)
    requires f != "" && forall i :: 0 <= i < |f| ==> f[i] != '<'
    ensures Tokenize(f, enc) == enc(f)
  {
    forall i | 0 <= i < |f| ensures MatchAt(f[i..]) == None {
      NoMatchWithoutLess(f[i..]);
    }
    SplitPlain("", f);
    assert "" + f == f;
    FieldPart(f, enc);
    assert TokensOf([f], enc) == TokensOfPart(f, enc) + TokensOf([], enc);
  }
}
