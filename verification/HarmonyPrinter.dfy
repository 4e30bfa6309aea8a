/** What the printer shows of a message, and that the tokenizer loses nothing. */
module HarmonyPrinter {
  import opened Common
  import opened HarmonySpec
  import opened HarmonyTheorems
  import R = HarmonyRoundTrip

  // ---------------------------------------------------------------- the header

  lemma FreeTokens(f: string, enc: Encoder)
    requires SpecialFree(f)
    ensures Tokenize(f, enc) == Pieces(f, enc)
  {
    R.SplitPlain("", f);
    assert "" + f == f;
    FieldPart(f, enc);
    assert TokensOf([f], enc) == TokensOfPart(f, enc) + TokensOf([], enc);
  }

  /** What a printed header shows: the role, "user" if it is missing, and the recipient if
      there is one.  Its reader has just that text when the header ends. */
  lemma HeaderShown(m: Msg, enc: Encoder)
    requires Faithful(enc) && PlainFields(m)
    ensures Run(Fresh(), Tokenize(Spelling(Start) + Header(m), enc)).header ==
      (if m.role == "" then "user" else m.role) + (if m.recipient == "" then "" else " to=" + m.recipient)
  {
    HeaderFree(m);
    OpensWith(Header(m), enc);
    HeaderText(m);
  }

  lemma OpensWith(f: string, enc: Encoder)
    requires Faithful(enc) && SpecialFree(f)
    ensures Run(Fresh(), Tokenize(Spelling(Start) + f, enc)).header == f
  {
    TokenizeStart(f, enc);
    FreeTokens(f, enc);
    R.RunOpening(Fresh(), Pieces(f, enc));
  }

  lemma HeaderText(m: Msg)
    ensures Header(m) ==
      (if m.role == "" then "user" else m.role) + (if m.recipient == "" then "" else " to=" + m.recipient)
  {
    assert RoleOf(m) + "" == RoleOf(m);
  }

  // ---------------------------------------------------------------- the content

  lemma {:induction false} ContentsConcat(a: seq<Content>, b: seq<Content>)
    ensures ContentsToStr(a + b) == ContentsToStr(a) + ContentsToStr(b)
    decreases |a|
  {
    if a == [] {
      assert a + b == b;
    } else {
      assert (a + b)[0] == a[0] && (a + b)[1..] == a[1..] + b;
      ContentsConcat(a[1..], b);
    }
  }

  /** A list prints as its items in order; nesting does not show; an item prints as its text,
      and one without any prints nothing. */
  lemma ContentShown(a: seq<Content>, inner: seq<Content>, b: seq<Content>, s: string)
    ensures ContentToStr(Many(a + [Many(inner)] + b)) == ContentToStr(Many(a + inner + b))
    ensures ContentToStr(Many(a + [Plain(s)] + b)) == ContentToStr(Many(a)) + s + ContentToStr(Many(b))
    ensures ContentToStr(Many(a + [WithText(Some(s))] + b)) == ContentToStr(Many(a)) + s + ContentToStr(Many(b))
    ensures ContentToStr(Many(a + [WithText(None)] + b)) == ContentToStr(Many(a + b))
    ensures ContentToStr(Many(a + [Other] + b)) == ContentToStr(Many(a + b))
    ensures ContentToStr(Many([])) == "" && ContentToStr(Plain(s)) == s
  {
    Between(a, [Many(inner)], b);
    Between(a, inner, b);
    One(Many(inner));
    Between(a, [Plain(s)], b);
    One(Plain(s));
    Between(a, [WithText(Some(s))], b);
    One(WithText(Some(s)));
    Between(a, [WithText(None)], b);
    One(WithText(None));
    Between(a, [Other], b);
    One(Other);
    ContentsConcat(a, b);
  }

  lemma Between(a: seq<Content>, mid: seq<Content>, b: seq<Content>)
    ensures ContentsToStr(a + mid + b) == ContentsToStr(a) + ContentsToStr(mid) + ContentsToStr(b)
  {
    ContentsConcat(a + mid, b);
    ContentsConcat(a, mid);
  }

  lemma One(c: Content)
    ensures ContentsToStr([c]) == ContentToStr(c)
  {
    assert [c][1..] == [];
    assert ContentToStr(c) + "" == ContentToStr(c);
  }

  // ---------------------------------------------------------------- the tokenizer

  /** The text that tokens spell. */
  function Spelled(ts: seq<Token>): string {
    if ts == [] then ""
    else (match ts[0] case Special(s) => Spelling(s) case Text(piece) => piece case Undecodable => "") + Spelled(ts[1..])
  }

  lemma {:induction false} SpelledConcat(a: seq<Token>, b: seq<Token>)
    ensures Spelled(a + b) == Spelled(a) + Spelled(b)
  {
    if a == [] {
      assert a + b == b;
    } else {
      assert (a + b)[0] == a[0] && (a + b)[1..] == a[1..] + b;
      SpelledConcat(a[1..], b);
    }
  }

  lemma {:induction false} SpelledText(ts: seq<Token>)
    requires AllText(ts)
    ensures Spelled(ts) == Joined(ts)
  {
    if ts != [] {
      SpelledText(ts[1..]);
    }
  }

  function Flat(parts: seq<string>): string {
    if parts == [] then "" else parts[0] + Flat(parts[1..])
  }

  lemma FlatTwo(a: string, b: string, parts: seq<string>)
    ensures Flat([a, b] + parts) == a + b + Flat(parts)
  {
    var all := [a, b] + parts;
    assert all[1..] == [b] + parts && ([b] + parts)[1..] == parts;
  }

  /** Splitting takes nothing away. */
  lemma {:induction false} SplitKeeps(pending: string, text: string)
    ensures Flat(Split(pending, text)) == pending + text
    decreases |text|
  {
    if text == "" {
      assert [pending][1..] == [] && pending + "" == pending;
      assert Flat([pending]) == pending + Flat([]);
    } else if MatchAt(text).None? {
      SplitStep(pending, text);
      SplitKeeps(pending + [text[0]], text[1..]);
      assert pending + [text[0]] + text[1..] == pending + text;
    } else {
      var d := MatchAt(text).value;
      MatchInPrefix(PATTERN, text);
      var rest := text[|Spelling(d)|..];
      assert text == Spelling(d) + rest;
      SplitStart(pending, text, d, rest);
      SplitKeeps("", rest);
      FlatTwo(pending, Spelling(d), Split("", rest));
      assert "" + rest == rest && pending + Spelling(d) + rest == pending + text;
    }
  }

  lemma PartSpelled(part: string, enc: Encoder)
    requires Faithful(enc)
    ensures Spelled(TokensOfPart(part, enc)) == part
  {
    NamedSpells(PATTERN, part);
    if Named(part).Some? {
      var s := Named(part).value;
      assert [Special(s)][1..] == [];
      assert Spelled([Special(s)]) == Spelling(s) + Spelled([]);
      assert Spelling(s) + "" == Spelling(s);
    } else if part != "" {
      SpelledText(enc(part));
    }
  }

  lemma {:induction false} PartsSpelled(parts: seq<string>, enc: Encoder)
    requires Faithful(enc)
    ensures Spelled(TokensOf(parts, enc)) == Flat(parts)
  {
    if parts != [] {
      PartSpelled(parts[0], enc);
      PartsSpelled(parts[1..], enc);
      SpelledConcat(TokensOfPart(parts[0], enc), TokensOf(parts[1..], enc));
    }
  }

  /** The tokens of any text spell that text. */
  lemma TokenizeSpells(text: string, enc: Encoder)
    requires Faithful(enc)
    ensures Spelled(Tokenize(text, enc)) == text
  {
    PartsSpelled(Split("", text), enc);
    SplitKeeps("", text);
    assert "" + text == text;
  }
}
