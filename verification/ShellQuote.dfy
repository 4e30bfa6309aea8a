/**
 The nested quoting of _start_ray_vllm, undone by the shell.

 `Read` is token recognition and quote removal of the POSIX Shell Command Language (IEEE
 Std 1003.1, XCU sections 2.2 and 2.3), for text without expansions: a character that
 could start one makes the reading fail, so that nothing is claimed about it.
 */
module ShellQuote {
  import opened Common

  // ---------------------------------------------------------------- building the command

  /** shlex's safe characters. */
  predicate Safe(c: char) {
    'a' <= c <= 'z' || 'A' <= c <= 'Z' || '0' <= c <= '9' || c == '_'
    || c == '@' || c == '%' || c == '+' || c == '=' || c == ':' || c == ',' || c == '.' || c == '/' || c == '-'
  }

  predicate AllSafe(s: string) {
    forall c | c in s :: Safe(c)
  }

  /** s.replace("'", r). */
  function ReplaceQuotes(s: string, r: string): string {
    if s == "" then "" else (if s[0] == '\'' then r else [s[0]]) + ReplaceQuotes(s[1..], r)
  }

  /** shlex.quote. */
  function Quote(s: string): string {
    if s == "" then "''"
    else if AllSafe(s) then s
    else "'" + ReplaceQuotes(s, "'\"'\"'") + "'"
  }

  /** " ".join(shlex.quote(p) for p in argv). */
  function CommandLine(argv: seq<string>): string {
    if argv == [] then ""
    else if |argv| == 1 then Quote(argv[0])
    else Quote(argv[0]) + " " + CommandLine(argv[1..])
  }

  function Inner(container: string, cmd: string): string {
    "exec -a vllm-serve-" + container + " " + cmd
  }

  /** The word after `bash -c`: only the command has its quotes escaped. */
  function InnerWord(container: string, cmd: string): string {
    "'exec -a vllm-serve-" + container + " " + ReplaceQuotes(cmd, "'\\''") + "'"
  }

  function Background(container: string, cmd: string): string {
    "nohup bash -c " + InnerWord(container, cmd) + " > /tmp/vllm_" + container + ".log 2>&1 &"
  }

  // ---------------------------------------------------------------- the shell

  datatype Token = Word(text: string) | Operator(symbol: char)

  datatype Mode = Plain | Single | Double | Escaped

  /** `word` is the word being read, if one has begun. */
  datatype Reader = Reader(tokens: seq<Token>, word: Option<string>, mode: Mode, ok: bool)

  function Begun(r: Reader): string {
    if r.word.Some? then r.word.value else ""
  }

  function Ended(r: Reader): seq<Token> {
    if r.word.Some? then r.tokens + [Word(r.word.value)] else r.tokens
  }

  predicate IsOperator(c: char) {
    c == '\n' || c == ';' || c == '&' || c == '|' || c == '<' || c == '>' || c == '(' || c == ')'
  }

  function ReadChar(r: Reader, c: char): Reader {
    match r.mode
    case Plain =>
      if c == ' ' || c == '\t' then r.(tokens := Ended(r), word := None)
      else if IsOperator(c) then r.(tokens := Ended(r) + [Operator(c)], word := None)
      else if c == '\'' then r.(word := Some(Begun(r)), mode := Single)
      else if c == '"' then r.(word := Some(Begun(r)), mode := Double)
      else if c == '\\' then r.(mode := Escaped)
      else if Safe(c) then r.(word := Some(Begun(r) + [c]))
      else r.(ok := false)
    case Single =>
      if c == '\'' then r.(mode := Plain) else r.(word := Some(Begun(r) + [c]))
    case Double =>
      if c == '"' then r.(mode := Plain)
      else if c == '$' || c == '`' || c == '\\' then r.(ok := false)
      else r.(word := Some(Begun(r) + [c]))
    case Escaped =>
      if c == '\n' then r.(mode := Plain) else r.(word := Some(Begun(r) + [c]), mode := Plain)
  }

  function Read(r: Reader, s: string): Reader
    decreases |s|
  {
    if s == "" then r else Read(ReadChar(r, s[0]), s[1..])
  }

  function Empty(): Reader {
    Reader([], None, Plain, true)
  }

  /** The tokens of a whole command, if it is complete and within the model. */
  function Tokens(s: string): Option<seq<Token>> {
    var r := Read(Empty(), s);
    if r.ok && r.mode == Plain then Some(Ended(r)) else None
  }

  function Words(ws: seq<string>): seq<Token> {
    seq(|ws|, i requires 0 <= i < |ws| => Word(ws[i]))
  }

  // ---------------------------------------------------------------- lemmas

  lemma {:induction false} ReadConcat(r: Reader, a: string, b: string)
    ensures Read(r, a + b) == Read(Read(r, a), b)
    decreases |a|
  {
    if a == "" {
      assert a + b == b;
    } else {
      assert (a + b)[1..] == a[1..] + b;
      ReadConcat(ReadChar(r, a[0]), a[1..], b);
    }
  }

  lemma ReadOne(r: Reader, c: char)
    ensures Read(r, [c]) == ReadChar(r, c)
  {
    assert [c][1..] == "";
    assert Read(ReadChar(r, c), "") == ReadChar(r, c);
  }

  function Adding(r: Reader, s: string): Reader {
    r.(word := Some(Begun(r) + s))
  }

  /** Unquoted safe text is read as it is. */
  lemma {:induction false} ReadSafe(r: Reader, s: string)
    requires r.mode == Plain && s != "" && AllSafe(s)
    ensures Read(r, s) == Adding(r, s)
    decreases |s|
  {
    var q := ReadChar(r, s[0]);
    assert s[0] in s;
    assert s == [s[0]] + s[1..];
    SafeIsLiteral(s[0]);
    if |s| > 1 {
      ReadSafe(q, s[1..]);
      assert Begun(r) + [s[0]] + s[1..] == Begun(r) + s;
    } else {
      assert s[1..] == "" && Begun(r) + [s[0]] == Begun(r) + s;
      assert Read(q, s[1..]) == q;
    }
  }

  lemma SafeIsLiteral(c: char)
    requires Safe(c)
    ensures c != ' ' && c != '\t' && !IsOperator(c) && c != '\'' && c != '"' && c != '\\'
  {
  }

  /** Inside single quotes everything but a single quote is read as it is. */
  lemma {:induction false} ReadSingle(r: Reader, s: string)
    requires r.mode == Single && '\'' !in s
    ensures Read(r, s) == if s == "" then r else Adding(r, s)
    decreases |s|
  {
    if s != "" {
      assert s[0] in s;
      var q := ReadChar(r, s[0]);
      ReadSingle(q, s[1..]);
      assert Begun(r) + [s[0]] + s[1..] == Begun(r) + s;
      assert s[1..] == "" ==> Begun(r) + [s[0]] == Begun(r) + s;
    }
  }

  lemma ReadCons(r: Reader, c: char, s: string)
    ensures Read(r, [c] + s) == Read(ReadChar(r, c), s)
  {
    assert ([c] + s)[1..] == s;
  }

  lemma ReadQuoteMark(r: Reader, rest: string)
    ensures r.mode == Single ==> Read(r, ['\''] + rest) == Read(r.(mode := Plain), rest)
    ensures r.mode == Plain ==> Read(r, ['\''] + rest) == Read(r.(word := Some(Begun(r)), mode := Single), rest)
  {
    ReadCons(r, '\'', rest);
  }

  /** `'\''`, inside single quotes. */
  lemma ReadEscapedQuote(r: Reader, s: string)
    requires r.mode == Single && r.word.Some? && s == "'\\''"
    ensures Read(r, s) == Adding(r, "'")
  {
    var s1, s2, s3 := s[1..], s[2..], s[3..];
    assert s == ['\''] + s1 && s1 == ['\\'] + s2 && s2 == ['\''] + s3 && s3 == ['\''];
    ReadQuoteMark(r, s1);
    ReadCons(r.(mode := Plain), '\\', s2);
    var e := r.(mode := Escaped);
    ReadCons(e, '\'', s3);
    ReadOne(ReadChar(e, '\''), '\'');
  }

  /** `'"'"'`, inside single quotes. */
  lemma ReadDoubledQuote(r: Reader, s: string)
    requires r.mode == Single && r.word.Some? && s == "'\"'\"'"
    ensures Read(r, s) == Adding(r, "'")
  {
    var s1, s2, s3, s4 := s[1..], s[2..], s[3..], s[4..];
    assert s == ['\''] + s1 && s1 == ['"'] + s2 && s2 == ['\''] + s3 && s3 == ['"'] + s4 && s4 == ['\''];
    ReadQuoteMark(r, s1);
    ReadCons(r.(mode := Plain), '"', s2);
    var d := r.(mode := Double);
    ReadCons(d, '\'', s3);
    var d' := ReadChar(d, '\'');
    ReadCons(d', '"', s4);
    ReadOne(ReadChar(d', '"'), '\'');
  }

  lemma ReadBroken(r: Reader, c: char, broken: string)
    requires r.mode == Single && r.word.Some?
    requires broken == "'\\''" || broken == "'\"'\"'"
    ensures Read(r, if c == '\'' then broken else [c]) == Adding(r, [c])
  {
    if c == '\'' {
      assert "'" == [c];
      if broken == "'\\''" {
        ReadEscapedQuote(r, broken);
      } else {
        ReadDoubledQuote(r, broken);
      }
    } else {
      ReadOne(r, c);
    }
  }

  /** Text with its quotes broken out reads, between quotes, as the text. */
  lemma {:induction false} ReadReplaced(r: Reader, s: string, broken: string)
    requires r.mode == Single && r.word.Some?
    requires broken == "'\\''" || broken == "'\"'\"'"
    ensures Read(r, ReplaceQuotes(s, broken)) == Adding(r, s)
    decreases |s|
  {
    if s == "" {
      assert Begun(r) + s == Begun(r);
    } else {
      var first := if s[0] == '\'' then broken else [s[0]];
      ReadConcat(r, first, ReplaceQuotes(s[1..], broken));
      ReadBroken(r, s[0], broken);
      var q := Adding(r, [s[0]]);
      ReadReplaced(q, s[1..], broken);
      assert Begun(r) + [s[0]] + s[1..] == Begun(r) + s;
    }
  }

  /** A quoted argument reads as that argument. */
  lemma ReadQuoted(r: Reader, s: string)
    requires r.mode == Plain && r.word.None?
    ensures Read(r, Quote(s)) == r.(word := Some(s))
  {
    if s == "" {
      ReadBetween(r, "");
      assert "''" == "'" + "" + "'";
    } else if AllSafe(s) {
      ReadSafe(r, s);
      assert "" + s == s;
    } else {
      var open := r.(word := Some(""), mode := Single);
      ReadReplaced(open, s, "'\"'\"'");
      assert "" + s == s;
      ReadClosed(r, ReplaceQuotes(s, "'\"'\"'"), s);
    }
  }

  /** `'` + t + `'`, where t alone reads as s inside single quotes. */
  lemma ReadClosed(r: Reader, t: string, s: string)
    requires r.mode == Plain && r.word.None?
    requires Read(r.(word := Some(""), mode := Single), t) == r.(word := Some(s), mode := Single)
    ensures Read(r, "'" + t + "'") == r.(word := Some(s))
  {
    var open := r.(word := Some(""), mode := Single);
    assert "'" == ['\''];
    assert "'" + t + "'" == ['\''] + (t + ['\'']);
    ReadCons(r, '\'', t + ['\'']);
    ReadConcat(open, t, ['\'']);
    ReadOne(r.(word := Some(s), mode := Single), '\'');
  }

  lemma ReadBetween(r: Reader, t: string)
    requires r.mode == Plain && r.word.None? && '\'' !in t
    ensures Read(r, "'" + t + "'") == r.(word := Some(t))
  {
    var open := r.(word := Some(""), mode := Single);
    ReadSingle(open, t);
    assert "" + t == t;
    ReadClosed(r, t, t);
  }

  lemma ReadBlank(r: Reader)
    requires r.mode == Plain
    ensures Read(r, " ") == r.(tokens := Ended(r), word := None)
  {
    assert " " == [' '];
    ReadOne(r, ' ');
  }

  lemma ReadThenSpace(r: Reader, quoted: string, w: string, rest: string)
    requires r.mode == Plain && r.word.None? && Read(r, quoted) == r.(word := Some(w))
    ensures Read(r, quoted + " " + rest) == Read(r.(tokens := r.tokens + [Word(w)]), rest)
  {
    assert quoted + " " + rest == quoted + (" " + rest);
    ReadConcat(r, quoted, " " + rest);
    ReadSpace(r.(word := Some(w)), rest);
  }

  lemma WordsCons(before: seq<Token>, argv: seq<string>)
    requires argv != []
    ensures before + [Word(argv[0])] + Words(argv[1..]) == before + Words(argv)
  {
  }

  /** A command line of quoted arguments reads as those arguments. */
  lemma {:induction false} ReadCommandLine(r: Reader, argv: seq<string>)
    requires r.mode == Plain && r.word.None?
    ensures var q := Read(r, CommandLine(argv));
      q.ok == r.ok && q.mode == Plain && Ended(q) == r.tokens + Words(argv)
    decreases |argv|
  {
    if argv == [] {
      assert Words(argv) == [];
    } else {
      ReadQuoted(r, argv[0]);
      if |argv| == 1 {
        assert Words(argv) == [Word(argv[0])];
      } else {
        ReadThenSpace(r, Quote(argv[0]), argv[0], CommandLine(argv[1..]));
        ReadCommandLine(r.(tokens := r.tokens + [Word(argv[0])]), argv[1..]);
        WordsCons(r.tokens, argv);
      }
    }
  }

  lemma ReadHead(r: Reader, head: string, cmd: string)
    requires r.mode == Plain && r.word.None? && '\'' !in head
    ensures Read(r, "'" + (head + ReplaceQuotes(cmd, "'\\''")) + "'") == r.(word := Some(head + cmd))
  {
    var open := r.(word := Some(""), mode := Single);
    var tail := ReplaceQuotes(cmd, "'\\''");
    ReadSingle(open, head);
    assert "" + head == head;
    assert Read(open, head) == open.(word := Some(head));
    ReadConcat(open, head, tail);
    ReadReplaced(open.(word := Some(head)), cmd, "'\\''");
    ReadClosed(r, head + tail, head + cmd);
  }

  lemma Regroup(q: string, a: string, b: string, c: string, d: string)
    ensures q + a + b + c + d + q == q + ((a + b + c) + d) + q
  {
  }

  /** The outer shell hands bash -c the inner command as one word, whatever the command. */
  lemma OuterWord(r: Reader, container: string, cmd: string)
    requires r.mode == Plain && r.word.None? && '\'' !in container
    ensures Read(r, InnerWord(container, cmd)) == r.(word := Some(Inner(container, cmd)))
  {
    ReadHead(r, "exec -a vllm-serve-" + container + " ", cmd);
    Regroup("'", "exec -a vllm-serve-", container, " ", ReplaceQuotes(cmd, "'\\''"));
    assert "'exec -a vllm-serve-" == "'" + "exec -a vllm-serve-";
  }

  // ---------------------------------------------------------------- both shells

  lemma AllSafeConcat(a: string, b: string)
    requires AllSafe(a) && AllSafe(b)
    ensures AllSafe(a + b)
  {
  }

  lemma ReadWords(r: Reader, argv: seq<string>)
    requires r.mode == Plain && r.word.None?
    ensures Read(r, CommandLine(argv) + " ") == r.(tokens := r.tokens + Words(argv), word := None)
  {
    ReadCommandLine(r, argv);
    ReadConcat(r, CommandLine(argv), " ");
    var q := Read(r, CommandLine(argv));
    ReadBlank(q);
    assert Read(q, " ") == q.(tokens := Ended(q), word := None);
  }

  lemma ThreeWords(a: string, b: string, c: string)
    requires AllSafe(a) && AllSafe(b) && AllSafe(c) && a != "" && b != "" && c != ""
    ensures CommandLine([a, b, c]) + " " == a + " " + b + " " + c + " "
  {
    assert [a, b, c][1..] == [b, c] && [b, c][1..] == [c];
    assert CommandLine([c]) == c;
    assert CommandLine([b, c]) == b + " " + c;
    assert CommandLine([a, b, c]) == a + " " + CommandLine([b, c]);
  }

  /** The shell in the container starts exactly the given program and arguments, under the
      name the gateway looks for. */
  lemma InnerShell(container: string, argv: seq<string>)
    requires AllSafe(container)
    ensures Tokens(Inner(container, CommandLine(argv)))
         == Some(Words(["exec", "-a", "vllm-serve-" + container] + argv))
  {
    var tag := "vllm-serve-" + container;
    AllSafeConcat("vllm-serve-", container);
    ThreeWords("exec", "-a", tag);
    var head := ["exec", "-a", tag];
    assert Inner(container, CommandLine(argv)) == (CommandLine(head) + " ") + CommandLine(argv) by {
      assert "exec -a vllm-serve-" == "exec" + " " + "-a" + " " + "vllm-serve-";
      Regroup3("exec" + " " + "-a" + " ", "vllm-serve-", container, " ", CommandLine(argv));
    }
    ReadConcat(Empty(), CommandLine(head) + " ", CommandLine(argv));
    ReadWords(Empty(), head);
    var r := Reader(Words(head), None, Plain, true);
    assert [] + Words(head) == Words(head);
    assert Read(Empty(), CommandLine(head) + " ") == r;
    ReadCommandLine(r, argv);
    assert Words(head) + Words(argv) == Words(head + argv);
  }

  lemma Regroup3(a: string, b: string, c: string, d: string, e: string)
    ensures (a + b) + c + d + e == (a + (b + c) + d) + e
  {
  }

  lemma ReadOperator(r: Reader, c: char, rest: string)
    requires r.mode == Plain && IsOperator(c)
    ensures Read(r, [c] + rest) == Read(r.(tokens := Ended(r) + [Operator(c)], word := None), rest)
  {
    ReadCons(r, c, rest);
  }

  lemma ReadWord(r: Reader, w: string, rest: string)
    requires r.mode == Plain && r.word.None? && w != "" && AllSafe(w)
    ensures Read(r, w + rest) == Read(r.(word := Some(w)), rest)
  {
    ReadConcat(r, w, rest);
    ReadSafe(r, w);
    assert "" + w == w;
  }

  lemma ReadSpace(r: Reader, rest: string)
    requires r.mode == Plain
    ensures Read(r, " " + rest) == Read(r.(tokens := Ended(r), word := None), rest)
  {
    ReadConcat(r, " ", rest);
    ReadBlank(r);
  }

  function Redirection(log: string): seq<Token> {
    [Operator('>'), Word(log), Word("2"), Operator('>'), Operator('&'), Word("1"), Operator('&')]
  }

  function Descriptor(): string {
    "2" + (['>'] + (['&'] + ("1" + (" " + (['&'] + "")))))
  }

  function Ending(log: string): string {
    " " + (['>'] + (" " + (log + (" " + Descriptor()))))
  }

  /** ` > log 2>&1 &` after a word. */
  lemma ReadRedirection(r: Reader, log: string)
    requires r.mode == Plain && r.word.Some? && log != "" && AllSafe(log)
    ensures Read(r, Ending(log))
         == r.(tokens := Ended(r) + Redirection(log), word := None)
  {
    var s4 := Descriptor();
    var s1 := " " + (log + (" " + s4));
    var t := Ended(r);
    ReadSpace(r, ['>'] + s1);
    var r1 := r.(tokens := t, word := None);
    ReadOperator(r1, '>', s1);
    var r2 := r.(tokens := t + [Operator('>')], word := None);
    ReadSpace(r2, log + (" " + s4));
    ReadWord(r2, log, " " + s4);
    ReadSpace(r2.(word := Some(log)), s4);
    ReadDescriptor(r2.(tokens := r2.tokens + [Word(log)]));
    assert r2.tokens + [Word(log)] + Redirection(log)[2..] == t + Redirection(log);
  }

  lemma ReadDescriptor(r: Reader)
    requires r.mode == Plain && r.word.None?
    ensures Read(r, Descriptor())
         == r.(tokens := r.tokens + [Word("2"), Operator('>'), Operator('&'), Word("1"), Operator('&')])
  {
    var s9 := ['&'] + "";
    var s7 := "1" + (" " + s9);
    var t := r.tokens;
    ReadWord(r, "2", ['>'] + (['&'] + s7));
    ReadOperator(r.(word := Some("2")), '>', ['&'] + s7);
    var t1 := t + [Word("2")] + [Operator('>')];
    ReadOperator(r.(tokens := t1), '&', s7);
    var t2 := t1 + [Operator('&')];
    ReadWord(r.(tokens := t2), "1", " " + s9);
    ReadSpace(r.(tokens := t2, word := Some("1")), s9);
    var t3 := t2 + [Word("1")];
    ReadOperator(r.(tokens := t3), '&', "");
    assert t3 + [Operator('&')] == t + [Word("2"), Operator('>'), Operator('&'), Word("1"), Operator('&')];
  }

  /** The outer shell runs nohup bash -c on the one inner command, in the background. */
  lemma OuterShell(container: string, cmd: string)
    requires AllSafe(container)
    ensures Tokens(Background(container, cmd))
         == Some(Words(["nohup", "bash", "-c"] + [Inner(container, cmd)])
                 + Redirection("/tmp/vllm_" + container + ".log"))
  {
    var head := ["nohup", "bash", "-c"];
    var log := "/tmp/vllm_" + container + ".log";
    var inner := Inner(container, cmd);
    AllSafeConcat("/tmp/vllm_", container);
    AllSafeConcat("/tmp/vllm_" + container, ".log");
    ThreeWords("nohup", "bash", "-c");
    assert '\'' !in container by {
      assert !Safe('\'');
    }
    EndOfLine(container, CommandLine(head) + " ", InnerWord(container, cmd));
    OuterWord(Reader(Words(head), None, Plain, true), container, cmd);
    ReadOuter(head, InnerWord(container, cmd), inner, log);
    WordsSnoc(head, inner);
  }

  lemma WordsSnoc(head: seq<string>, w: string)
    ensures Words(head) + [Word(w)] == Words(head + [w])
  {
  }

  lemma ReadOuter(head: seq<string>, word: string, inner: string, log: string)
    requires log != "" && AllSafe(log)
    requires var r := Reader(Words(head), None, Plain, true); Read(r, word) == r.(word := Some(inner))
    ensures Tokens((CommandLine(head) + " ") + (word + Ending(log)))
         == Some(Words(head) + [Word(inner)] + Redirection(log))
  {
    var r := Reader(Words(head), None, Plain, true);
    ReadConcat(Empty(), CommandLine(head) + " ", word + Ending(log));
    ReadWords(Empty(), head);
    assert [] + Words(head) == Words(head);
    ReadConcat(r, word, Ending(log));
    ReadRedirection(r.(word := Some(inner)), log);
  }

  lemma EndOfLine(container: string, head: string, word: string)
    requires head == "nohup bash -c "
    ensures var log := "/tmp/vllm_" + container + ".log";
      "nohup bash -c " + word + " > /tmp/vllm_" + container + ".log 2>&1 &" == head + (word + Ending(log))
  {
    assert " > /tmp/vllm_" == " " + (['>'] + (" " + "/tmp/vllm_"));
    assert ".log 2>&1 &" == ".log" + (" " + Descriptor());
  }
}
