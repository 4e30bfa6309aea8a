/** Splitting and joining text, as str.split, str.join and iteration over a file do. */
module LogText {

  function Split(s: string, c: char): (r: seq<string>)
    ensures |r| >= 1
  {
    if s == "" then [""]
    else
      var r := Split(s[1..], c);
      if s[0] == c then [""] + r else [[s[0]] + r[0]] + r[1..]
  }

  function Join(fields: seq<string>, c: char): string {
    if fields == [] then ""
    else if |fields| == 1 then fields[0]
    else fields[0] + [c] + Join(fields[1..], c)
  }

  lemma {:induction false} SplitConcat(a: string, b: string, c: char)
    ensures Split(a + [c] + b, c) == Split(a, c) + Split(b, c)
  {
    var s := a + [c] + b;
    if a == "" {
      assert s[1..] == b;
    } else {
      assert s[1..] == a[1..] + [c] + b;
      SplitConcat(a[1..], b, c);
    }
  }

  lemma {:induction false} SplitPlain(s: string, c: char)
    requires c !in s
    ensures Split(s, c) == [s]
  {
    if s != "" {
      SplitPlain(s[1..], c);
      assert [s[0]] + s[1..] == s;
    }
  }

  predicate Free(fields: seq<string>, c: char) {
    forall f | f in fields :: c !in f
  }

  /** Fields free of the separator come back from their joined line. */
  lemma {:induction false} SplitJoin(fields: seq<string>, c: char)
    requires fields != [] && Free(fields, c)
    ensures Split(Join(fields, c), c) == fields
  {
    SplitPlain(fields[0], c);
    if |fields| > 1 {
      SplitJoin(fields[1..], c);
      SplitConcat(fields[0], Join(fields[1..], c), c);
      assert fields == [fields[0]] + fields[1..];
    }
  }

  lemma {:induction false} JoinFree(fields: seq<string>, c: char, d: char)
    requires Free(fields, d) && c != d
    ensures d !in Join(fields, c)
  {
    if |fields| > 1 {
      JoinFree(fields[1..], c, d);
    }
  }

  /** Nothing after the last line end. */
  predicate Whole(content: string) {
    content == "" || content[|content| - 1] == '\n'
  }

  /** The lines of a file, without their ends. */
  function Lines(content: string): seq<string> {
    var pieces := Split(content, '\n');
    if Whole(content) then pieces[..|pieces| - 1] else pieces
  }

  /** One write of a line adds one line, whatever the file holds. */
  lemma LinesAppend(content: string, text: string)
    requires Whole(content) && '\n' !in text
    ensures Whole(content + (text + "\n"))
    ensures Lines(content + (text + "\n")) == Lines(content) + [text]
  {
    SplitPlain(text, '\n');
    SplitPlain("", '\n');
    var all := content + (text + "\n");
    assert all == (content + text) + ['\n'] + "";
    SplitConcat(content + text, "", '\n');
    if content == "" {
      assert content + text == text;
    } else {
      var c0 := content[..|content| - 1];
      assert content == c0 + ['\n'] + "" && content + text == c0 + ['\n'] + text;
      SplitConcat(c0, "", '\n');
      SplitConcat(c0, text, '\n');
    }
  }

  /** `pat in s`. */
  predicate Contains(s: string, pat: string)
    decreases |s|
  {
    pat <= s || (s != "" && Contains(s[1..], pat))
  }

  lemma {:induction false} ContainsAtEnd(s: string, pat: string)
    ensures Contains(s + pat, pat)
  {
    if s == "" {
      assert s + pat == pat;
    } else {
      assert (s + pat)[1..] == s[1..] + pat;
      ContainsAtEnd(s[1..], pat);
    }
  }
}
