/** The retry loop of _stream_response in gateway/proxy.py. */
module Proxy {
  type Chunk = string

  /** What one post comes to. */
  datatype Attempt =
    | Completes(chunks: seq<Chunk>)
    | Breaks(chunks: seq<Chunk>, why: string)    // no chunks: it never connected
    | Rejected(status: int, body: string)
    | BodyLost(why: string)                      // the text of a rejection fails to arrive

  datatype Sent = Data(chunk: Chunk) | ErrorEvent(message: string, code: int)

  /** An attempt that leaves the client with nothing, so that it may be repeated. */
  predicate Silent(a: Attempt) {
    a.BodyLost? || (a.Breaks? && a.chunks == [])
  }

  function Why(a: Attempt): string
    requires Silent(a)
  {
    a.why
  }

  function DataOf(chunks: seq<Chunk>): seq<Sent> {
    seq(|chunks|, i requires 0 <= i < |chunks| => Data(chunks[i]))
  }

  function Interrupted(why: string): Sent {
    ErrorEvent("Stream interrupted: " + why, 502)
  }

  /** What the client gets of one attempt. */
  function Outcome(a: Attempt): seq<Sent> {
    match a
    case Completes(chunks) => DataOf(chunks)
    case Breaks(chunks, why) => if chunks == [] then [] else DataOf(chunks) + [Interrupted(why)]
    case Rejected(status, body) => [ErrorEvent(body, status)]
    case BodyLost(_) => []
  }

  /** How many attempts come before the first that is not silent. */
  function SilentPrefix(attempts: seq<Attempt>): (n: nat)
    ensures n <= |attempts|
    ensures forall i | 0 <= i < n :: Silent(attempts[i])
    ensures n < |attempts| ==> !Silent(attempts[n])
  {
    if attempts == [] || !Silent(attempts[0]) then 0 else 1 + SilentPrefix(attempts[1..])
  }

  lemma SilentPrefixIs(attempts: seq<Attempt>, n: nat)
    requires n <= |attempts| && (forall i | 0 <= i < n :: Silent(attempts[i]))
    requires n < |attempts| ==> !Silent(attempts[n])
    ensures SilentPrefix(attempts) == n
  {
  }

  function LastWhy(attempts: seq<Attempt>): string
    requires forall a | a in attempts :: Silent(a)
  {
    if attempts == [] then "None" else Why(attempts[|attempts| - 1])
  }

  lemma DataSnoc(chunks: seq<Chunk>, k: nat)
    requires k < |chunks|
    ensures DataOf(chunks[..k + 1]) == DataOf(chunks[..k]) + [Data(chunks[k])]
  {
  }

  /** `attempts` are the outcomes the backend will give, one per post, up to `retries`. */
  method StreamResponse(retries: nat, attempts: seq<Attempt>) returns (out: seq<Sent>, posts: nat)
    requires |attempts| == retries
    ensures var n := SilentPrefix(attempts);
      if n < retries then posts == n + 1 && out == Outcome(attempts[n])
      else posts == retries && out == [ErrorEvent(LastWhy(attempts), 502)]
  {
    out := [];
    posts := 0;
    var lastExc := "None";
    var sentAny := false;
    while posts < retries
      invariant posts <= retries && !sentAny && out == []
      invariant forall i | 0 <= i < posts :: Silent(attempts[i])
      invariant lastExc == LastWhy(attempts[..posts])
    {
      var a := attempts[posts];
      posts := posts + 1;
      ghost var n := posts - 1;
      match a {
        case Rejected(status, body) =>
          SilentPrefixIs(attempts, n);
          out := [ErrorEvent(body, status)];
          return;
        case BodyLost(why) =>
          lastExc := why;
        case Completes(chunks) =>
          SilentPrefixIs(attempts, n);
          out, sentAny := Forward(out, sentAny, chunks);
          return;
        case Breaks(chunks, why) =>
          out, sentAny := Forward(out, sentAny, chunks);
          lastExc := why;
          if sentAny {
            SilentPrefixIs(attempts, n);
            out := out + [Interrupted(why)];
            return;
          }
      }
      assert attempts[..posts][..n] == attempts[..n];
    }
    SilentPrefixIs(attempts, retries);
    assert attempts[..posts] == attempts;
    out := [ErrorEvent(lastExc, 502)];
  }

  /** The loop over the chunks of one response, with its latch. */
  method Forward(before: seq<Sent>, latch: bool, chunks: seq<Chunk>) returns (out: seq<Sent>, sentAny: bool)
    ensures out == before + DataOf(chunks)
    ensures sentAny <==> latch || chunks != []
  {
    out, sentAny := before, latch;
    var k := 0;
    while k < |chunks|
      invariant 0 <= k <= |chunks|
      invariant out == before + DataOf(chunks[..k])
      invariant sentAny <==> latch || k > 0
    {
      DataSnoc(chunks, k);
      sentAny := true;
      out := out + [Data(chunks[k])];
      k := k + 1;
    }
    assert chunks[..k] == chunks;
  }

  // ---------------------------------------------------------------- what the client sees

  function Response(attempts: seq<Attempt>): seq<Sent> {
    var n := SilentPrefix(attempts);
    if n < |attempts| then Outcome(attempts[n]) else [ErrorEvent(LastWhy(attempts), 502)]
  }

  function ChunksOf(out: seq<Sent>): seq<Chunk> {
    if out == [] then [] else (if out[0].Data? then [out[0].chunk] else []) + ChunksOf(out[1..])
  }

  function Delivered(a: Attempt): seq<Chunk> {
    if a.Completes? || a.Breaks? then a.chunks else []
  }

  lemma {:induction false} ChunksOfData(chunks: seq<Chunk>, rest: seq<Sent>)
    ensures ChunksOf(DataOf(chunks) + rest) == chunks + ChunksOf(rest)
  {
    if chunks == [] {
      assert DataOf(chunks) + rest == rest;
    } else {
      var all := DataOf(chunks) + rest;
      assert all[0] == Data(chunks[0]) && all[1..] == DataOf(chunks[1..]) + rest;
      ChunksOfData(chunks[1..], rest);
    }
  }

  /** No replay: the chunks the client sees are those of the last post alone, all earlier
      ones having brought none; there is at most one error event, and it comes last. */
  lemma NoReplay(attempts: seq<Attempt>)
    ensures var n := SilentPrefix(attempts);
      var out := Response(attempts);
      && (forall i | 0 <= i < n :: Delivered(attempts[i]) == [])
      && ChunksOf(out) == (if n < |attempts| then Delivered(attempts[n]) else [])
      && (forall i | 0 <= i < |out| :: out[i].ErrorEvent? ==> i == |out| - 1)
  {
    var n := SilentPrefix(attempts);
    var out := Response(attempts);
    if n < |attempts| {
      var a := attempts[n];
      ChunksOfData(Delivered(a), []);
      assert DataOf(Delivered(a)) + [] == DataOf(Delivered(a));
      if a.Breaks? {
        ChunksOfData(a.chunks, [Interrupted(a.why)]);
        assert ChunksOf([Interrupted(a.why)]) == [];
      }
    }
  }

  /** The client sees no error exactly when some attempt completes and only silent ones
      come before it; then it has the whole answer of that attempt. */
  lemma CleanIff(attempts: seq<Attempt>)
    ensures var out := Response(attempts);
      (forall e | e in out :: e.Data?)
      <==> exists n | 0 <= n < |attempts| ::
             attempts[n].Completes? && (forall i | 0 <= i < n :: Silent(attempts[i]))
             && out == DataOf(attempts[n].chunks)
  {
    var n := SilentPrefix(attempts);
    var out := Response(attempts);
    if n < |attempts| && attempts[n].Completes? {
      forall e | e in out ensures e.Data? {
        var i :| 0 <= i < |out| && out[i] == e;
      }
    } else {
      assert out[|out| - 1] in out && out[|out| - 1].ErrorEvent?;
    }
    if m: nat :| m < |attempts| && attempts[m].Completes? && (forall i | 0 <= i < m :: Silent(attempts[i])) {
      SilentPrefixIs(attempts, m);
    }
  }

  /** Which error the client sees, if any: the status and body of the rejection that decides,
      the interruption of the stream that decides, or the last reason when every attempt
      was silent. */
  lemma ErrorIff(attempts: seq<Attempt>, message: string, code: int)
    ensures var n := SilentPrefix(attempts);
      ErrorEvent(message, code) in Response(attempts) <==>
        if n < |attempts| then
          || attempts[n] == Rejected(code, message)
          || (attempts[n].Breaks? && message == "Stream interrupted: " + attempts[n].why && code == 502)
        else
          message == (if attempts == [] then "None" else attempts[n - 1].why) && code == 502
  {
    var n := SilentPrefix(attempts);
    if n < |attempts| {
      NoErrorIn(Delivered(attempts[n]), message, code);
      if attempts[n].Breaks? {
        assert Response(attempts) == DataOf(attempts[n].chunks) + [Interrupted(attempts[n].why)];
      }
    }
  }

  lemma NoErrorIn(chunks: seq<Chunk>, message: string, code: int)
    ensures ErrorEvent(message, code) !in DataOf(chunks)
  {
  }
}
