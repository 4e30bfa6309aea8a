/** Dropping the oldest files, as _prune does, costs at most the front of one session. */
module ForensicsPruning {
  import opened ForensicsSpec

  predicate EndsWith<T(==)>(s: seq<T>, tail: seq<T>) {
    |tail| <= |s| && s[|s| - |tail|..] == tail
  }

  /** `part` is the end of `whole`, its first session perhaps without its first segments. */
  predicate TailOf(part: seq<Session>, whole: seq<Session>) {
    && |part| <= |whole|
    && (part != [] ==>
          var m := |whole| - |part|;
          && part[1..] == whole[m + 1..]
          && part[0].clean == whole[m].clean && part[0].file == whole[m].file
          && EndsWith(whole[m].segments, part[0].segments))
  }

  lemma EndsWithMore<T>(s: seq<T>, tail: seq<T>, more: seq<T>)
    requires EndsWith(s, tail)
    ensures EndsWith(s + more, tail + more)
  {
    assert s == s[..|s| - |tail|] + tail;
    assert s + more == s[..|s| - |tail|] + (tail + more);
  }

  lemma JoinKeepsTail(part: seq<Session>, whole: seq<Session>, s: Session)
    requires TailOf(part, whole) && part != []
    ensures TailOf(MergeOne(part, s), MergeOne(whole, s))
  {
    var m := |whole| - |part|;
    var p, w := MergeOne(part, s), MergeOne(whole, s);
    if Continues(s) {
      if |part| == 1 {
        EndsWithMore(whole[m].segments, part[0].segments, s.segments);
      } else {
        assert part[|part| - 1] == part[1..][|part| - 2];
        assert whole[|whole| - 1] == whole[m + 1..][|part| - 2];
        assert p[1..] == UpdateLast(part[1..], p[|part| - 1]);
        assert w[m + 1..] == UpdateLast(whole[m + 1..], w[|whole| - 1]);
      }
    } else {
      assert p[1..] == part[1..] + [s] && w[m + 1..] == whole[m + 1..] + [s];
    }
  }

  lemma FirstKeepsTail(whole: seq<Session>, s: Session)
    ensures TailOf(MergeOne([], s), MergeOne(whole, s))
  {
    var w := MergeOne(whole, s);
    assert MergeOne([], s) == [s];
    assert w[|w| - 1 + 1..] == [];
    if whole != [] && Continues(s) {
      var prev := whole[|whole| - 1];
      assert (prev.segments + s.segments)[|prev.segments|..] == s.segments;
    }
  }

  lemma {:induction false} MergeKeepsTail(part: seq<Session>, whole: seq<Session>, ss: seq<Session>)
    requires TailOf(part, whole)
    ensures TailOf(Merge(part, ss), Merge(whole, ss))
    decreases |ss|
  {
    if ss != [] {
      var n := |ss| - 1;
      MergeKeepsTail(part, whole, ss[..n]);
      if Merge(part, ss[..n]) == [] {
        FirstKeepsTail(Merge(whole, ss[..n]), ss[n]);
      } else {
        JoinKeepsTail(Merge(part, ss[..n]), Merge(whole, ss[..n]), ss[n]);
      }
    }
  }

  lemma AllSnoc(older: Disk, f: File)
    ensures AllSessions(older + [f]) == Merge(AllSessions(older), LoadFile(f).sessions)
  {
    assert (older + [f])[..|older|] == older;
  }

  lemma OneFileMore(part: Disk, whole: Disk, f: File)
    requires TailOf(AllSessions(part), AllSessions(whole))
    ensures TailOf(AllSessions(part + [f]), AllSessions(whole + [f]))
  {
    AllSnoc(part, f);
    AllSnoc(whole, f);
    MergeKeepsTail(AllSessions(part), AllSessions(whole), LoadFile(f).sessions);
  }

  /** Without the files before the cutoff, what is read is the end of what was read. */
  lemma {:induction false} PrunedTail(dropped: Disk, kept: Disk)
    ensures TailOf(AllSessions(kept), AllSessions(dropped + kept))
    decreases |kept|
  {
    if kept != [] {
      var n := |kept| - 1;
      var rest, f := kept[..n], kept[n];
      PrunedTail(dropped, rest);
      OneFileKept(dropped, rest, f);
      assert kept == rest + [f];
    }
  }

  lemma OneFileKept(dropped: Disk, rest: Disk, f: File)
    requires TailOf(AllSessions(rest), AllSessions(dropped + rest))
    ensures TailOf(AllSessions(rest + [f]), AllSessions(dropped + (rest + [f])))
  {
    OneFileMore(rest, dropped + rest, f);
    assert dropped + (rest + [f]) == (dropped + rest) + [f];
  }
}
