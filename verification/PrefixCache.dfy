/** RadixPrefixCache of gateway/request_buffer.py against its recency list. */
module PrefixCache {
  import opened Common
  import opened LogText

  type Key = string

  // ---------------------------------------------------------------- the system prefix

  /** A missing content is "" for dict.get; `NotText` is any content that is not a string. */
  datatype Content = Text(s: string) | NotText

  datatype Message = Message(role: string, content: Content)

  /** The texts of the leading system messages. */
  function SystemParts(messages: seq<Message>): seq<string> {
    if messages == [] || messages[0].role != "system" then []
    else (if messages[0].content.Text? then [messages[0].content.s] else []) + SystemParts(messages[1..])
  }

  // ---------------------------------------------------------------- recency

  function Without(keys: seq<Key>, x: Key): seq<Key> {
    if keys == [] then []
    else if keys[0] == x then Without(keys[1..], x)
    else [keys[0]] + Without(keys[1..], x)
  }

  /** The distinct keys of a history of uses, least recently used first. */
  function Recency(uses: seq<Key>): seq<Key> {
    if uses == [] then []
    else Without(Recency(uses[..|uses| - 1]), uses[|uses| - 1]) + [uses[|uses| - 1]]
  }

  function Newest(keys: seq<Key>, k: nat): seq<Key> {
    if k <= |keys| then keys[|keys| - k..] else keys
  }

  /** What the OrderedDict does with one use, as a function on its keys. */
  function Touch(keys: seq<Key>, x: Key, k: nat): seq<Key> {
    if x in keys then Without(keys, x) + [x]
    else if |keys| >= k && keys != [] then keys[1..] + [x]
    else keys + [x]
  }

  function Cached(uses: seq<Key>, k: nat): seq<Key> {
    if uses == [] then [] else Touch(Cached(uses[..|uses| - 1], k), uses[|uses| - 1], k)
  }

  predicate Distinct(keys: seq<Key>) {
    forall i, j | 0 <= i < j < |keys| :: keys[i] != keys[j]
  }

  lemma {:induction false} WithoutIs(keys: seq<Key>, x: Key)
    ensures x !in Without(keys, x)
    ensures forall y :: y in Without(keys, x) <==> y in keys && y != x
    ensures Distinct(keys) ==> Distinct(Without(keys, x))
  {
    if keys != [] {
      WithoutIs(keys[1..], x);
      assert keys == [keys[0]] + keys[1..];
      if Distinct(keys) && keys[0] != x {
        DistinctCons(keys[0], Without(keys[1..], x));
      }
    }
  }

  lemma DistinctCons(x: Key, keys: seq<Key>)
    requires Distinct(keys) && x !in keys
    ensures Distinct([x] + keys)
  {
  }

  lemma {:induction false} WithoutAbsent(keys: seq<Key>, x: Key)
    requires x !in keys
    ensures Without(keys, x) == keys
  {
    if keys != [] {
      WithoutAbsent(keys[1..], x);
    }
  }

  /** Taking out the one occurrence of a key. */
  lemma {:induction false} WithoutAt(keys: seq<Key>, i: nat)
    requires Distinct(keys) && i < |keys|
    ensures Without(keys, keys[i]) == keys[..i] + keys[i + 1..]
    decreases i
  {
    if i == 0 {
      WithoutAbsent(keys[1..], keys[0]);
    } else {
      WithoutAt(keys[1..], i - 1);
      assert [keys[0]] + keys[1..][..i - 1] == keys[..i];
    }
  }

  lemma {:induction false} RecencyDistinct(uses: seq<Key>)
    ensures Distinct(Recency(uses))
    ensures forall x :: x in Recency(uses) <==> x in uses
  {
    if uses != [] {
      var n := |uses| - 1;
      RecencyDistinct(uses[..n]);
      WithoutIs(Recency(uses[..n]), uses[n]);
      assert uses == uses[..n] + [uses[n]];
    }
  }

  function Cut(keys: seq<Key>, k: nat): nat {
    if k <= |keys| then |keys| - k else 0
  }

  lemma TouchNew(keys: seq<Key>, x: Key, k: nat)
    requires x !in keys && k >= 1
    ensures Touch(Newest(keys, k), x, k) == Newest(keys + [x], k)
  {
    assert Newest(keys, k) == keys[Cut(keys, k)..];
    assert x !in Newest(keys, k);
    if k <= |keys| {
      assert keys[|keys| - k..][1..] == keys[|keys| - k + 1..];
    }
  }

  lemma TouchKept(keys: seq<Key>, i: nat, k: nat)
    requires Distinct(keys) && k >= 1 && Cut(keys, k) <= i < |keys|
    ensures Touch(Newest(keys, k), keys[i], k) == Newest(keys[..i] + keys[i + 1..] + [keys[i]], k)
  {
    var cut := Cut(keys, k);
    var part := keys[cut..];
    assert Newest(keys, k) == part && part[i - cut] == keys[i];
    assert keys[i] in part;
    WithoutAt(part, i - cut);
    NewestSplit(keys, i, cut, k);
  }

  lemma TouchLost(keys: seq<Key>, i: nat, k: nat)
    requires Distinct(keys) && k >= 1 && i < Cut(keys, k)
    ensures Touch(Newest(keys, k), keys[i], k) == Newest(keys[..i] + keys[i + 1..] + [keys[i]], k)
  {
    var cut := Cut(keys, k);
    assert Newest(keys, k) == keys[cut..];
    assert keys[i] !in keys[cut..];
    NewestLate(keys, i, cut, k);
  }

  /** One use keeps the cache the newest part of the recency list. */
  lemma TouchNewest(keys: seq<Key>, x: Key, k: nat)
    requires Distinct(keys) && k >= 1
    ensures Touch(Newest(keys, k), x, k) == Newest(Without(keys, x) + [x], k)
  {
    if x !in keys {
      WithoutAbsent(keys, x);
      TouchNew(keys, x, k);
    } else {
      var i :| 0 <= i < |keys| && keys[i] == x;
      WithoutAt(keys, i);
      if i >= Cut(keys, k) {
        TouchKept(keys, i, k);
      } else {
        TouchLost(keys, i, k);
      }
    }
  }

  lemma NewestSplit(keys: seq<Key>, i: nat, cut: nat, k: nat)
    requires cut <= i < |keys| && cut == if k <= |keys| then |keys| - k else 0
    ensures keys[cut..][..i - cut] + keys[cut..][i - cut + 1..] + [keys[i]]
         == Newest(keys[..i] + keys[i + 1..] + [keys[i]], k)
  {
  }

  lemma NewestLate(keys: seq<Key>, i: nat, cut: nat, k: nat)
    requires i < cut < |keys| && cut == |keys| - k
    ensures keys[cut..][1..] + [keys[i]] == Newest(keys[..i] + keys[i + 1..] + [keys[i]], k)
  {
  }

  /** The cache holds the `k` most recently used distinct keys, least recent first. */
  lemma {:induction false} CacheIsNewest(uses: seq<Key>, k: nat)
    requires k >= 1
    ensures Cached(uses, k) == Newest(Recency(uses), k)
    decreases |uses|
  {
    if uses != [] {
      var n := |uses| - 1;
      CacheIsNewest(uses[..n], k);
      RecencyDistinct(uses[..n]);
      TouchNewest(Recency(uses[..n]), uses[n], k);
    }
  }

  /** Fed the same history, a cache is always contained in one with room for one more. */
  lemma Inclusion(uses: seq<Key>, k: nat)
    requires k >= 1
    ensures forall x | x in Cached(uses, k) :: x in Cached(uses, k + 1)
  {
    CacheIsNewest(uses, k);
    CacheIsNewest(uses, k + 1);
    var r := Recency(uses);
    forall x | x in Newest(r, k) ensures x in Newest(r, k + 1) {
      if k < |r| {
        assert Newest(r, k + 1)[1..] == Newest(r, k);
      }
    }
  }

  // ---------------------------------------------------------------- stack distance

  /** The uses after the last use of x. */
  function Since(uses: seq<Key>, x: Key): seq<Key> {
    if uses == [] || uses[|uses| - 1] == x then []
    else Since(uses[..|uses| - 1], x) + [uses[|uses| - 1]]
  }

  function After(keys: seq<Key>, x: Key): seq<Key> {
    if x !in keys then [] else if keys[0] == x then keys[1..] else After(keys[1..], x)
  }

  lemma {:induction false} AfterConcat(a: seq<Key>, b: seq<Key>, x: Key)
    ensures After(a + b, x) == if x in a then After(a, x) + b else After(b, x)
  {
    if a == [] {
      assert a + b == b;
    } else {
      assert (a + b)[1..] == a[1..] + b && (a + b)[0] == a[0];
      AfterConcat(a[1..], b, x);
    }
  }

  lemma {:induction false} AfterWithout(keys: seq<Key>, x: Key, y: Key)
    requires x != y
    ensures After(Without(keys, y), x) == Without(After(keys, x), y)
  {
    WithoutIs(keys, y);
    if keys != [] {
      WithoutIs(keys[1..], y);
      AfterWithout(keys[1..], x, y);
      if keys[0] != y {
        assert ([keys[0]] + Without(keys[1..], y))[1..] == Without(keys[1..], y);
      }
    }
  }

  /** The keys more recent than x are those used since x. */
  lemma {:induction false} AfterIsSince(uses: seq<Key>, x: Key)
    requires x in uses
    ensures forall y :: y in After(Recency(uses), x) <==> y in Since(uses, x)
    decreases |uses|
  {
    var n := |uses| - 1;
    var before, y := Recency(uses[..n]), uses[n];
    WithoutIs(before, y);
    AfterConcat(Without(before, y), [y], x);
    if x != y {
      RecencyDistinct(uses[..n]);
      assert uses == uses[..n] + [y];
      AfterIsSince(uses[..n], x);
      AfterWithout(before, x, y);
      WithoutIs(After(before, x), y);
    } else {
      assert [y][1..] == [];
    }
  }

  lemma {:induction false} DistinctSize(keys: seq<Key>)
    requires Distinct(keys)
    ensures |set x | x in keys| == |keys|
  {
    var all := set x | x in keys;
    if keys == [] {
      assert all == {};
    } else {
      DistinctSize(keys[1..]);
      assert keys == [keys[0]] + keys[1..];
      assert all == {keys[0]} + (set x | x in keys[1..]);
    }
  }

  lemma {:induction false} AfterPlace(keys: seq<Key>, x: Key, k: nat)
    requires Distinct(keys) && x in keys
    ensures Distinct(After(keys, x)) && |After(keys, x)| < |keys|
    ensures x in Newest(keys, k) <==> |After(keys, x)| < k
  {
    if keys[0] == x {
      if k < |keys| {
        assert x !in keys[|keys| - k..];
      }
    } else {
      AfterPlace(keys[1..], x, k);
      if k < |keys| {
        assert keys[1..][|keys[1..]| - k..] == keys[|keys| - k..];
      }
    }
  }

  /** A key is in the cache exactly when it was used and fewer than k other keys have been
      used since. */
  lemma StackDistance(uses: seq<Key>, k: nat, x: Key)
    requires k >= 1
    ensures x in Cached(uses, k) <==> x in uses && |set y | y in Since(uses, x)| < k
  {
    CacheIsNewest(uses, k);
    RecencyDistinct(uses);
    var r := Recency(uses);
    if x in uses {
      AfterPlace(r, x, k);
      AfterIsSince(uses, x);
      DistinctSize(After(r, x));
      assert (set y | y in Since(uses, x)) == (set y | y in After(r, x));
    } else {
      assert forall y | y in Newest(r, k) :: y in r;
    }
  }

  // ---------------------------------------------------------------- hit counts

  /** Uses of x since the use that put it in the cache, that one not counted. */
  function Hits(uses: seq<Key>, k: nat, x: Key): nat {
    if uses == [] then 0
    else
      var n := |uses| - 1;
      if uses[n] != x then Hits(uses[..n], k, x)
      else if x in Cached(uses[..n], k) then Hits(uses[..n], k, x) + 1
      else 0
  }

  function Count(uses: seq<Key>, x: Key): nat {
    if uses == [] then 0
    else Count(uses[..|uses| - 1], x) + if uses[|uses| - 1] == x then 1 else 0
  }

  /** Use i of x found it missing, and x has stayed since. */
  predicate Inserted(uses: seq<Key>, k: nat, x: Key, i: nat) {
    && i < |uses| && uses[i] == x && x !in Cached(uses[..i], k)
    && forall j | i < j <= |uses| :: x in Cached(uses[..j], k)
  }

  lemma StaysInserted(uses: seq<Key>, last: Key, k: nat, x: Key, i: nat)
    requires Inserted(uses, k, x, i) && x in Cached(uses + [last], k)
    ensures Inserted(uses + [last], k, x, i)
  {
    var all := uses + [last];
    assert all[..i] == uses[..i];
    forall j | i < j <= |all| ensures x in Cached(all[..j], k) {
      if j <= |uses| {
        assert all[..j] == uses[..j];
      } else {
        assert all[..j] == all;
      }
    }
  }

  lemma CountSnoc(uses: seq<Key>, last: Key, i: nat, x: Key)
    requires i < |uses|
    ensures Count((uses + [last])[i + 1..], x) == Count(uses[i + 1..], x) + if last == x then 1 else 0
  {
    var rest := (uses + [last])[i + 1..];
    assert rest[..|rest| - 1] == uses[i + 1..] && rest[|rest| - 1] == last;
  }

  /** The hit count of a cached key is its uses since its last insertion. */
  lemma {:induction false} HitsAreUses(uses: seq<Key>, k: nat, x: Key) returns (i: nat)
    requires k >= 1 && x in Cached(uses, k)
    ensures Inserted(uses, k, x, i) && Hits(uses, k, x) == Count(uses[i + 1..], x)
    decreases |uses|
  {
    var n := |uses| - 1;
    var before, last := uses[..n], uses[n];
    if last == x && x !in Cached(before, k) {
      i := n;
      assert uses[n + 1..] == [] && uses[..n + 1] == uses;
    } else {
      OnlyUsesInsert(Cached(before, k), last, k, x);
      i := HitsAreUses(before, k, x);
      assert uses == before + [last];
      StaysInserted(before, last, k, x, i);
      CountSnoc(before, last, i, x);
    }
  }

  lemma OnlyUsesInsert(keys: seq<Key>, y: Key, k: nat, x: Key)
    requires (x in Touch(keys, y, k) && x != y) || x in keys
    ensures x in keys
  {
    WithoutIs(keys, y);
  }

  // ---------------------------------------------------------------- the cache

  datatype CachedPrefix = CachedPrefix(text: string, hits: nat)

  lemma SystemPartsHead(messages: seq<Message>)
    requires messages != []
    ensures SystemParts(messages) ==
      if messages[0].role != "system" then []
      else (if messages[0].content.Text? then [messages[0].content.s] else []) + SystemParts(messages[1..])
  {
  }

  lemma {:induction false} SystemPartsConcat(a: seq<Message>, b: seq<Message>)
    requires forall m | m in a :: m.role == "system"
    ensures SystemParts(a + b) == SystemParts(a) + SystemParts(b)
  {
    if a == [] {
      assert a + b == b;
    } else {
      assert a[0] in a && (a + b)[1..] == a[1..] + b;
      SystemPartsConcat(a[1..], b);
    }
  }

  /** One leading system message adds its text, if its content is one. */
  lemma SystemPartsOne(system: seq<Message>, s: string)
    requires forall m | m in system :: m.role == "system"
    ensures SystemParts(system + [Message("system", Text(s))]) == SystemParts(system) + [s]
    ensures SystemParts(system + [Message("system", NotText)]) == SystemParts(system)
    ensures SystemParts([]) == []
  {
    SystemPartsConcat(system, [Message("system", Text(s))]);
    SystemPartsConcat(system, [Message("system", NotText)]);
    assert [Message("system", Text(s))][1..] == [] && [Message("system", NotText)][1..] == [];
    assert SystemParts([Message("system", Text(s))]) == [s] + SystemParts([]);
  }

  /** Conversations that share their leading system messages share their key, whatever
      follows the first other message. */
  lemma SharedPrefix(system: seq<Message>, m: Message, rest: seq<Message>)
    requires (forall s | s in system :: s.role == "system") && m.role != "system"
    ensures SystemParts(system + [m] + rest) == SystemParts(system)
  {
    assert system + [m] + rest == system + ([m] + rest);
    SystemPartsConcat(system, [m] + rest);
    assert SystemParts([m] + rest) == [];
  }

  /** What is kept of a prefix for display. */
  function Excerpt(s: string): (r: string)
    ensures r <= s && |r| == (if |s| < 200 then |s| else 200)
  {
    if |s| < 200 then s else s[..200]
  }

  type Entries = map<Key, CachedPrefix>

  /** Keys and entries of a cache with room for k, after these uses. */
  ghost predicate Agrees(order: seq<Key>, entries: Entries, uses: seq<Key>, k: nat) {
    && order == Cached(uses, k)
    && (forall x :: x in order <==> x in entries)
    && (forall x | x in entries :: entries[x].hits == Hits(uses, k, x))
  }

  lemma UsesSnoc(uses: seq<Key>, h: Key, k: nat, x: Key)
    ensures Cached(uses + [h], k) == Touch(Cached(uses, k), h, k)
    ensures Hits(uses + [h], k, x)
         == if h != x then Hits(uses, k, x) else if x in Cached(uses, k) then Hits(uses, k, x) + 1 else 0
  {
    assert (uses + [h])[..|uses|] == uses;
  }

  function Room(order: seq<Key>, k: nat): seq<Key> {
    if |order| >= k && order != [] then order[1..] else order
  }

  lemma InsertHas(order: seq<Key>, entries: Entries, kept: Entries, k: nat, h: Key, p: CachedPrefix)
    requires k >= 1 && Distinct(order) && forall x :: x in order <==> x in entries
    requires kept == if |order| >= k then entries - {order[0]} else entries
    ensures forall x :: x in Room(order, k) + [h] <==> x in kept[h := p]
  {
    if |order| >= k {
      assert order == [order[0]] + order[1..];
      assert order[0] !in order[1..];
    }
  }

  lemma CachedDistinct(uses: seq<Key>, k: nat)
    requires k >= 1
    ensures Distinct(Cached(uses, k))
  {
    CacheIsNewest(uses, k);
    RecencyDistinct(uses);
  }

  lemma InsertAgrees(order: seq<Key>, entries: Entries, kept: Entries, uses: seq<Key>, k: nat, h: Key, text: string)
    requires k >= 1 && Agrees(order, entries, uses, k) && h !in order
    requires kept == if |order| >= k then entries - {order[0]} else entries
    ensures Agrees(Room(order, k) + [h], kept[h := CachedPrefix(text, 0)], uses + [h], k)
  {
    CachedDistinct(uses, k);
    var after := kept[h := CachedPrefix(text, 0)];
    InsertHas(order, entries, kept, k, h, CachedPrefix(text, 0));
    UsesSnoc(uses, h, k, h);
    forall x | x in after ensures after[x].hits == Hits(uses + [h], k, x) {
      UsesSnoc(uses, h, k, x);
    }
  }

  lemma HitAgrees(order: seq<Key>, entries: Entries, uses: seq<Key>, k: nat, h: Key)
    requires k >= 1 && Agrees(order, entries, uses, k) && h in order
    ensures Agrees(Without(order, h) + [h], entries[h := entries[h].(hits := entries[h].hits + 1)], uses + [h], k)
  {
    WithoutIs(order, h);
    UsesSnoc(uses, h, k, h);
    var after := entries[h := entries[h].(hits := entries[h].hits + 1)];
    forall x | x in after ensures after[x].hits == Hits(uses + [h], k, x) {
      UsesSnoc(uses, h, k, x);
    }
  }

  class RadixPrefixCache {
    const maxEntries: int
    const hash: string -> Key
    var order: seq<Key>                      // the OrderedDict: its key order ...
    var entries: map<Key, CachedPrefix>      // ... and its values
    ghost var uses: seq<Key>

    ghost predicate Valid()
      reads this
    {
      && (maxEntries <= 0 ==> order == [] && entries == map[] && uses == [])
      && (maxEntries >= 1 ==> Agrees(order, entries, uses, maxEntries))
    }

    constructor (maxEntries: int, hash: string -> Key)
      ensures Valid() && uses == [] && this.maxEntries == maxEntries && this.hash == hash
    {
      this.maxEntries := maxEntries;
      this.hash := hash;
      order := [];
      entries := map[];
      uses := [];
    }

    /** The loop over the messages. */
    method SystemPartsOf(messages: seq<Message>) returns (parts: seq<string>)
      ensures parts == SystemParts(messages)
    {
      parts := [];
      var i := 0;
      while i < |messages|
        invariant 0 <= i <= |messages|
        invariant parts + SystemParts(messages[i..]) == SystemParts(messages)
      {
        SystemPartsHead(messages[i..]);
        assert messages[i..][1..] == messages[i + 1..];
        if messages[i].role != "system" {
          break;
        }
        if messages[i].content.Text? {
          parts := parts + [messages[i].content.s];
        }
        i := i + 1;
      }
    }

    /** get_prefix_hash; None is the KeyError of a cache that has no room at all. */
    method GetPrefixHash(messages: seq<Message>) returns (key: Option<Key>)
      requires Valid()
      modifies this
      ensures Valid()
      ensures var parts := SystemParts(messages);
        var h := hash(Join(parts, '\n'));
        if parts == [] then key == Some("") && uses == old(uses) && order == old(order)
        else if maxEntries <= 0 then key == None && uses == old(uses) && order == old(order)
        else key == Some(h) && uses == old(uses) + [h] && h in entries
             && (h !in old(entries) ==> entries[h] == CachedPrefix(Excerpt(Join(parts, '\n')), 0))
      ensures forall x | x in entries && x in old(entries) :: entries[x].text == old(entries)[x].text
    {
      var parts := SystemPartsOf(messages);
      if parts == [] {
        return Some("");
      }
      var combined := Join(parts, '\n');
      var h := hash(combined);
      ghost var before := entries;
      if h !in entries {
        if |order| >= maxEntries {
          if order == [] {
            return None;
          }
          Evict();
        }
        var text := Excerpt(combined);
        InsertAgrees(old(order), before, entries, uses, maxEntries, h, text);
        order := order + [h];
        entries := entries[h := CachedPrefix(text, 0)];
      } else {
        HitAgrees(order, entries, uses, maxEntries, h);
        entries := entries[h := entries[h].(hits := entries[h].hits + 1)];
        order := Without(order, h) + [h];
      }
      uses := uses + [h];
      return Some(h);
    }

    /** popitem(last=False). */
    method Evict()
      requires order != []
      modifies this
      ensures order == old(order)[1..] && entries == old(entries) - {old(order)[0]} && uses == old(uses)
    {
      entries := entries - {order[0]};
      order := order[1..];
    }
  }
}
