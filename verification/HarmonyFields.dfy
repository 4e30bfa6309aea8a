/**
 When exactly one printed message is read back as it was.
 */
module HarmonyFields {
  import opened Common
  import opened HarmonySpec

  // ---------------------------------------------------------------- strip and find

  lemma {:induction false} LStripSuffix(s: string)
    ensures |LStrip(s)| <= |s| && s[|s| - |LStrip(s)|..] == LStrip(s)
    ensures LStrip(s) != "" ==> !IsSpace(LStrip(s)[0])
  {
    if s != "" && IsSpace(s[0]) {
      LStripSuffix(s[1..]);
    }
  }

  lemma {:induction false} RStripPrefix(s: string)
    ensures RStrip(s) <= s
    ensures RStrip(s) != "" ==> !IsSpace(RStrip(s)[|RStrip(s)| - 1])
    ensures s != "" && !IsSpace(s[|s| - 1]) ==> RStrip(s) == s
    ensures forall i :: |RStrip(s)| <= i < |s| ==> IsSpace(s[i])
  {
    if s != "" && IsSpace(s[|s| - 1]) {
      RStripPrefix(s[..|s| - 1]);
    }
  }

  /** Stripping on the right stops at a character that is not white. */
  lemma {:induction false} RStripAfter(a: string, b: string)
    requires a != "" && !IsSpace(a[|a| - 1])
    ensures RStrip(a + b) == a + RStrip(b)
    decreases |b|
  {
    if b == "" {
      assert a + b == a;
    } else if IsSpace(b[|b| - 1]) {
      assert (a + b)[..|a + b| - 1] == a + b[..|b| - 1];
      RStripAfter(a, b[..|b| - 1]);
    }
  }

  lemma {:induction false} LStripBefore(a: string, b: string)
    ensures LStrip(a) != "" ==> LStrip(a + b) == LStrip(a) + b
    ensures LStrip(a) == "" ==> LStrip(a + b) == LStrip(b)
  {
    if a == "" {
      assert a + b == b;
    } else if IsSpace(a[0]) {
      assert (a + b)[1..] == a[1..] + b;
      LStripBefore(a[1..], b);
    }
  }

  predicate Occurs(s: string, pat: string, i: nat) {
    i + |pat| <= |s| && s[i..i + |pat|] == pat
  }

  /** Find is the first occurrence, or there is none. */
  lemma {:induction false} FindFirst(s: string, pat: string, i: nat)
    requires Occurs(s, pat, i)
    ensures Find(s, pat).Some? && Find(s, pat).value <= i
    decreases |s|
  {
    assert s[0..|pat|] == s[..|pat|];
    if !(pat <= s) {
      assert s[1..][i - 1..i - 1 + |pat|] == s[i..i + |pat|];
      FindFirst(s[1..], pat, i - 1);
    }
  }

  lemma OccursChars(s: string, i: nat)
    requires Occurs(s, TO_MARK, i)
    ensures s[i] == ' ' && !IsSpace(s[i + 1]) && !IsSpace(s[i + 2]) && !IsSpace(s[i + 3])
  {
    assert forall k :: 0 <= k < 4 ==> s[i + k] == s[i..i + 4][k] == TO_MARK[k];
  }

  /** The separator is found where the role ends, when the role has none itself. */
  lemma FindAfter(a: string, b: string)
    requires Find(a, TO_MARK) == None
    ensures Find(a + TO_MARK + b, TO_MARK) == Some(|a|)
  {
    var s := a + TO_MARK + b;
    assert s[|a|..|a| + 4] == TO_MARK;
    FindFirst(s, TO_MARK, |a|);
    var i := Find(s, TO_MARK).value;
    OccursChars(s, i);
    if i < |a| {
      assert s[|a|] == ' ';
      assert i + 4 <= |a|;
      assert a[i..i + 4] == s[i..i + 4];
      FindFirst(a, TO_MARK, i);
    }
  }

  /** A separator inside the role is found first. */
  lemma FindInside(a: string, b: string)
    requires Find(a, TO_MARK).Some?
    ensures Find(a + b, TO_MARK) == Find(a, TO_MARK)
  {
    var j := Find(a, TO_MARK).value;
    var s := a + b;
    assert s[j..j + 4] == a[j..j + 4];
    FindFirst(s, TO_MARK, j);
    var i := Find(s, TO_MARK).value;
    assert a[i..i + 4] == s[i..i + 4];
    FindFirst(a, TO_MARK, i);
  }

  lemma FindRStrip(s: string)
    ensures Find(RStrip(s), TO_MARK) == Find(s, TO_MARK)
  {
    RStripPrefix(s);
    var t := RStrip(s);
    assert s == t + s[|t|..];
    if Find(t, TO_MARK).Some? {
      FindInside(t, s[|t|..]);
    } else if Find(s, TO_MARK).Some? {
      var i := Find(s, TO_MARK).value;
      OccursChars(s, i);
      assert i + 4 <= |t|;
      assert t[i..i + 4] == s[i..i + 4];
      FindFirst(t, TO_MARK, i);
    }
  }

  // ---------------------------------------------------------------- the recipient

  /** The condition for a recipient to come back, checkable before printing: the role
      is not blank and holds no separator, and the recipient has no outer white space.
      Without a recipient, only the separator matters. */
  predicate StableRecipient(role: string, recipient: string) {
    && Find(LStrip(role), TO_MARK) == None
    && (recipient != "" ==> LStrip(role) != "" && Strip(recipient) == recipient)
  }

  lemma StripStable(s: string)
    ensures Strip(s) == s <==> LStrip(s) == s && RStrip(s) == s
    ensures |Strip(s)| <= |s|
    ensures Strip(RStrip(s)) == s <==> Strip(s) == s
    ensures Strip(s) != "" ==> !IsSpace(Strip(s)[|Strip(s)| - 1])
  {
    StripFixed(s);
    StripBounds(s);
    RStripThenStrip(s);
  }

  lemma StripBounds(s: string)
    ensures |Strip(s)| <= |LStrip(s)| <= |s|
    ensures Strip(s) != "" ==> !IsSpace(Strip(s)[|Strip(s)| - 1])
  {
    LStripSuffix(s);
    RStripPrefix(LStrip(s));
  }

  lemma StripFixed(s: string)
    ensures Strip(s) == s <==> LStrip(s) == s && RStrip(s) == s
  {
    LStripSuffix(s);
    RStripPrefix(LStrip(s));
  }

  /** Stripping what was already stripped on the right. */
  lemma RStripThenStrip(s: string)
    ensures Strip(RStrip(s)) == s <==> Strip(s) == s
  {
    RStripPrefix(s);
    StripBounds(RStrip(s));
    StripFixed(s);
    StripFixed(RStrip(s));
    SamePrefix(RStrip(s), s);
  }

  lemma SamePrefix(a: string, b: string)
    ensures a <= b && |a| == |b| ==> a == b
  {
  }

  lemma NoRecipient(role: string)
    ensures RecipientIn(role) == None <==> StableRecipient(role, "")
  {
    FindRStrip(LStrip(role));
  }

  /** A blank role: the separator's own space is stripped with it. */
  lemma BlankRole(role: string, r: string)
    requires r != "" && LStrip(role) == ""
    ensures RecipientIn(role + TO_MARK + r) != Some(r)
  {
    LStripBefore(role, TO_MARK + r);
    assert role + TO_MARK + r == role + (TO_MARK + r);
    LStripBefore(TO_MARK, r);
    assert LStrip(TO_MARK) == "to=";
    var h := Strip(role + TO_MARK + r);
    RStripAfter("to=", r);
    RStripPrefix(r);
    if Find(h, TO_MARK).Some? {
      StripStable(h[Find(h, TO_MARK).value + 4..]);
    }
  }

  /** A role that is not blank: what the header is after stripping. */
  lemma StripHeader(role: string, r: string)
    requires LStrip(role) != ""
    ensures Strip(role + TO_MARK + r) == LStrip(role) + TO_MARK + RStrip(r)
  {
    assert role + TO_MARK + r == role + (TO_MARK + r);
    LStripBefore(role, TO_MARK + r);
    var a := LStrip(role) + TO_MARK;
    assert LStrip(role) + (TO_MARK + r) == a + r;
    assert a[|a| - 1] == TO_MARK[3];
    RStripAfter(a, r);
  }

  lemma ClearRole(role: string, r: string)
    requires r != "" && LStrip(role) != "" && Find(LStrip(role), TO_MARK) == None
    ensures RecipientIn(role + TO_MARK + r) == Some(r) <==> Strip(r) == r
  {
    StripHeader(role, r);
    FindAfter(LStrip(role), RStrip(r));
    var h := LStrip(role) + TO_MARK + RStrip(r);
    assert h[|LStrip(role)| + 4..] == RStrip(r);
    StripStable(r);
  }

  /** A separator in the role cuts the recipient there: more than `r` comes back. */
  lemma DirtyRole(role: string, r: string)
    requires r != "" && Find(LStrip(role), TO_MARK).Some?
    ensures RecipientIn(role + TO_MARK + r) != Some(r)
  {
    StripHeader(role, r);
    var a := LStrip(role);
    var j := Find(a, TO_MARK).value;
    FoundInside(a, RStrip(r), j);
    NeverJust(a[j + 4..], r);
  }

  lemma FoundInside(a: string, b: string, j: nat)
    requires Find(a, TO_MARK) == Some(j)
    ensures Find(a + TO_MARK + b, TO_MARK) == Some(j)
    ensures |TO_MARK| == 4 && j + 4 <= |a| && (a + TO_MARK + b)[j + 4..] == a[j + 4..] + TO_MARK + b
  {
    assert a + TO_MARK + b == a + (TO_MARK + b);
    FindInside(a, TO_MARK + b);
  }

  lemma NeverJust(b: string, r: string)
    requires r != ""
    ensures Strip(b + TO_MARK + RStrip(r)) != r
  {
    var x := b + TO_MARK + RStrip(r);
    StripBounds(x);
    RStripPrefix(r);
    if RStrip(r) == r {
      StripLonger(b, r);
    }
  }

  lemma StripLonger(b: string, r: string)
    requires r != "" && RStrip(r) == r
    ensures |Strip(b + TO_MARK + r)| > |r|
  {
    assert b + TO_MARK + r == b + (TO_MARK + r);
    LStripBefore(b, TO_MARK + r);
    LStripBefore(TO_MARK, r);
    assert LStrip(TO_MARK) == "to=";
    var t := LStrip(b + TO_MARK + r);
    assert t[|t| - 1] == r[|r| - 1];
    RStripPrefix(t);
    RStripPrefix(r);
  }

  lemma RecipientIff(role: string, r: string)
    requires r != ""
    ensures RecipientIn(role + TO_MARK + r) == Some(r) <==> StableRecipient(role, r)
  {
    if LStrip(role) == "" {
      BlankRole(role, r);
    } else if Find(LStrip(role), TO_MARK) == None {
      ClearRole(role, r);
    } else {
      DirtyRole(role, r);
    }
  }

  // ---------------------------------------------------------------- the channel

  predicate Spaceless(s: string) {
    forall c :: c in s ==> !IsSpace(c)
  }

  lemma {:induction false} FirstWordIff(s: string)
    ensures Spaceless(FirstWord(s))
    ensures Spaceless(s) ==> FirstWord(s) == s
  {
    if s != "" && !IsSpace(s[0]) {
      FirstWordIff(s[1..]);
      assert forall c :: c in s[1..] ==> c in s;
    }
  }

  lemma ChannelIff(ch: string)
    requires ch != ""
    ensures ChannelIn(ch) == ch <==> Spaceless(ch)
  {
    FirstWordIff(Strip(ch));
    assert Spaceless("final");
    if Spaceless(ch) {
      assert ch[0] in ch && ch[|ch| - 1] in ch;
      RStripPrefix(ch);
      FirstWordIff(ch);
    }
  }

  // ---------------------------------------------------------------- what the readers find

  predicate Blank(s: string) {
    forall c | c in s :: IsSpace(c)
  }

  lemma {:induction false} LStripBlank(s: string)
    ensures |LStrip(s)| <= |s| && Blank(s[..|s| - |LStrip(s)|])
  {
    LStripSuffix(s);
    if s != "" && IsSpace(s[0]) {
      LStripBlank(s[1..]);
      assert s[..|s| - |LStrip(s)|] == [s[0]] + s[1..][..|s[1..]| - |LStrip(s[1..])|];
    }
  }

  /** strip takes white space off both ends and nothing else. */
  lemma StripIs(s: string) returns (i: nat, j: nat)
    ensures i <= j <= |s| && Strip(s) == s[i..j] && Blank(s[..i]) && Blank(s[j..])
    ensures i < j ==> !IsSpace(s[i]) && !IsSpace(s[j - 1])
  {
    LStripSuffix(s);
    LStripBlank(s);
    var u := LStrip(s);
    RStripPrefix(u);
    i := |s| - |u|;
    j := i + |RStrip(u)|;
    forall c | c in s[j..] ensures IsSpace(c) {
      var k :| 0 <= k < |s[j..]| && s[j..][k] == c;
      assert c == u[j + k - i];
    }
    if i < j {
      assert s[i] == u[0] && s[j - 1] == u[j - 1 - i];
    }
  }

  lemma {:induction false} FirstWordIs(s: string)
    ensures FirstWord(s) <= s && Spaceless(FirstWord(s))
    ensures |FirstWord(s)| < |s| ==> IsSpace(s[|FirstWord(s)|])
  {
    if s != "" && !IsSpace(s[0]) {
      FirstWordIs(s[1..]);
    }
  }

  /** The channel read from a text is its first word, and "final" if it has none. */
  lemma ChannelIs(text: string) returns (i: nat, j: nat)
    ensures i <= j <= |text| && Blank(text[..i])
    ensures Blank(text) ==> ChannelIn(text) == "final"
    ensures !Blank(text) ==> i < j && ChannelIn(text) == text[i..j] && Spaceless(text[i..j]) && (j < |text| ==> IsSpace(text[j]))
  {
    var k;
    i, k := StripIs(text);
    var t := Strip(text);
    FirstWordIs(t);
    j := i + |FirstWord(t)|;
    if t == "" {
      assert text == text[..i] + text[k..];
    } else {
      assert text[i] == t[0] && text[i] in text;
      if j < |text| {
        if j == k {
          assert text[j] in text[k..];
        } else {
          assert text[j] == t[j - i];
        }
      }
    }
  }

  /** The recipient read from a header is what stands, stripped, after the first separator of
      the stripped header; there is none if that has no separator. */
  lemma RecipientIs(header: string)
    ensures RecipientIn(header) == None <==> forall i: nat :: !Occurs(Strip(header), TO_MARK, i)
    ensures forall i: nat :: Occurs(Strip(header), TO_MARK, i) && (forall j: nat :: j < i ==> !Occurs(Strip(header), TO_MARK, j)) ==>
      RecipientIn(header) == Some(Strip(Strip(header)[i + |TO_MARK|..]))
  {
    var h := Strip(header);
    var found := Find(h, TO_MARK);
    if found.Some? {
      assert Occurs(h, TO_MARK, found.value);
    }
    forall i: nat | Occurs(h, TO_MARK, i) ensures found.Some? && found.value <= i {
      FindFirst(h, TO_MARK, i);
    }
  }
}
