/** How the credential store cleans a secret before keeping it. */
module SecretCleaning {
  import opened Trimming

  /** The text without trailing characters of the cutset. */
  function TrimEnd(s: string, cutset: string): string {
    if s != "" && s[|s| - 1] in cutset then TrimEnd(s[..|s| - 1], cutset) else s
  }

  function Unquote(s: string): string {
    if |s| >= 2 && s[0] == s[|s| - 1] && (s[0] == '"' || s[0] == '\'') then s[1..|s| - 1] else s
  }

  const LIST_ENDS := ",; \t"
  const QUOTED_ENDS := "\",;' \t"

  /** The value before the last trimming of white space. */
  function Stripped(s: string): string {
    TrimEnd(Unquote(TrimEnd(TrimSpace(s), LIST_ENDS)), QUOTED_ENDS)
  }

  function Clean(s: string): string { TrimSpace(Stripped(s)) }

  /** No white space at the ends, and no quote, comma or semicolon last. */
  predicate IsClean(s: string) {
    s == "" || (!IsSpace(s[0]) && !IsSpace(s[|s| - 1]) && s[|s| - 1] !in "\",;'")
  }

  lemma {:induction false} TrimEndShrinks(s: string, cutset: string)
    ensures var t := TrimEnd(s, cutset); |t| <= |s| && s[..|t|] == t && (t != "" ==> t[|t| - 1] !in cutset)
  {
    if s != "" && s[|s| - 1] in cutset { TrimEndShrinks(s[..|s| - 1], cutset); }
  }

  lemma CleanShrinks(s: string)
    ensures |Clean(s)| <= |s|
    ensures Clean(s) == s <==> IsClean(s)
    ensures |Clean(s)| == |s| ==> Clean(s) == s
  {
    hide IsSpace, TrimSpace;
    var a := TrimSpace(s);
    var b := TrimEnd(a, LIST_ENDS);
    var c := Unquote(b);
    var d := TrimEnd(c, QUOTED_ENDS);
    TrimSpaceFixpoint(s);
    TrimEndShrinks(a, LIST_ENDS);
    TrimEndShrinks(c, QUOTED_ENDS);
    TrimSpaceFixpoint(d);
    if Clean(s) == s {
      assert a == s && |b| == |a| && |c| == |b| && |d| == |c|;
      assert b == a && d == c;
      if s != "" { EndsAreVisible(s[|s| - 1]); }
    }
    if IsClean(s) && s != "" {
      EndsAreVisible(s[|s| - 1]);
    }
  }

  lemma EndsAreVisible(c: char)
    ensures !IsSpace(c) && c !in "\",;'" ==> c !in QUOTED_ENDS && c !in LIST_ENDS
    ensures c !in QUOTED_ENDS ==> c !in "\",;'"
  {
  }

  // ---------------------------------------------------------------- what cleaning removes

  /** A quote around the value, or none. */
  predicate IsQuote(q: string) { q == "" || q == "\"" || q == "'" }

  lemma {:induction false} TrimEndStops(s: string, tail: string, cutset: string)
    requires (forall c :: c in tail ==> c in cutset) && (s == "" || s[|s| - 1] !in cutset)
    ensures TrimEnd(s + tail, cutset) == s
  {
    if tail == "" {
      assert s + tail == s;
    } else {
      var init := tail[..|tail| - 1];
      assert (s + tail)[..|s + tail| - 1] == s + init && (s + tail)[|s + tail| - 1] == tail[|tail| - 1];
      assert tail[|tail| - 1] in tail && forall c :: c in init ==> c in tail;
      TrimEndStops(s, init, cutset);
    }
  }

  /** Trimming the front and the list ends leaves the visible part between them. */
  lemma TrimmedToMiddle(lead: string, s: string, tail: string)
    requires s != "" && !IsSpace(s[0]) && !IsSpace(s[|s| - 1]) && s[|s| - 1] !in LIST_ENDS
    requires (forall c :: c in lead ==> IsSpace(c)) && (forall c :: c in tail ==> c in LIST_ENDS)
    ensures TrimEnd(TrimSpace(lead + s + tail), LIST_ENDS) == s
  {
    hide IsSpace, TrimSpace;
    var all := lead + s + tail;
    var i, j := TrimSpaceCuts(all);
    assert all[|lead|] == s[0] && all[|lead| + |s| - 1] == s[|s| - 1];
    forall k | 0 <= k < |lead| ensures IsSpace(all[k]) { assert all[k] == lead[k] && lead[k] in lead; }
    assert i == |lead| && j >= |lead| + |s|;
    var rest := tail[..j - |lead| - |s|];
    assert all[i..j] == s + rest;
    forall c | c in rest ensures c in LIST_ENDS { assert c in tail; }
    TrimEndStops(s, rest, LIST_ENDS);
  }

  /** Cleaning undoes the usual damage of copying: white space in front, matching quotes
      around, and commas, semicolons, blanks and tabs behind a clean value all go. */
  lemma CleanUndoesDecoration(lead: string, q: string, x: string, tail: string)
    requires x != "" && IsClean(x) && IsQuote(q)
    requires (forall c :: c in lead ==> IsSpace(c)) && (forall c :: c in tail ==> c in LIST_ENDS)
    ensures Clean(lead + (q + x + q) + tail) == x
  {
    var s := q + x + q;
    EndsAreVisible(x[|x| - 1]);
    assert s[0] == if q == "" then x[0] else q[0];
    assert s[|s| - 1] == if q == "" then x[|x| - 1] else q[0];
    assert !IsSpace('"') && !IsSpace('\'');
    TrimmedToMiddle(lead, s, tail);
    hide IsSpace, TrimSpace;
    assert Unquote(s) == x by {
      if q != "" { assert s[1..|s| - 1] == x; } else { assert s == x; }
    }
    TrimEndStops(x, "", QUOTED_ENDS);
    assert x + "" == x;
    TrimSpaceFixpoint(x);
  }

  /** Cleaning twice is cleaning once exactly when the last visible character that the first
      cleaning leaves is no quote, comma or semicolon. */
  lemma StableExactlyWhen(s: string)
    ensures Clean(Clean(s)) == Clean(s) <==> Clean(s) == "" || Clean(s)[|Clean(s)| - 1] !in "\",;'"
  {
    hide IsSpace, TrimSpace, Stripped;
    CleanShrinks(Clean(s));
    TrimmedEnds(Stripped(s));
  }

  lemma TrimmedEnds(s: string)
    ensures TrimSpace(s) != "" ==> !IsSpace(TrimSpace(s)[0]) && !IsSpace(TrimSpace(s)[|TrimSpace(s)| - 1])
  {
    hide IsSpace;
    TrimLeftShrinks(s);
    TrimRightShrinks(TrimLeft(s));
  }

  /** The other values all have, before that last trimming, white space other than a blank or
      a tab at the end: it shielded the character from being stripped. */
  lemma UnstableIsShielded(s: string)
    requires Clean(Clean(s)) != Clean(s)
    ensures var m := Stripped(s); m != "" && IsSpace(m[|m| - 1]) && m[|m| - 1] != ' ' && m[|m| - 1] != '\t'
  {
    hide IsSpace, TrimSpace, Stripped;
    var m := Stripped(s);
    StableExactlyWhen(s);
    StrippedEnd(s);
    OnlyTheFrontIsTrimmed(m);
  }

  lemma StrippedEnd(s: string)
    ensures Stripped(s) != "" ==> Stripped(s)[|Stripped(s)| - 1] !in QUOTED_ENDS
  {
    TrimEndShrinks(Unquote(TrimEnd(TrimSpace(s), LIST_ENDS)), QUOTED_ENDS);
  }

  lemma OnlyTheFrontIsTrimmed(d: string)
    requires d != "" ==> d[|d| - 1] !in QUOTED_ENDS
    ensures (d != "" && IsSpace(d[|d| - 1])) || IsClean(TrimSpace(d))
  {
    hide IsSpace;
    TrimLeftShrinks(d);
    TrimRightShrinks(TrimLeft(d));
    if d != "" { EndsAreVisible(d[|d| - 1]); }
  }

  /** So cleaning is stable when the only white space is blanks and tabs. */
  lemma CleanIsStable(s: string)
    requires forall c :: c in s && IsSpace(c) ==> c == ' ' || c == '\t'
    ensures Clean(Clean(s)) == Clean(s)
  {
    hide IsSpace, TrimSpace, Clean;
    var m := Stripped(s);
    StrippedIsPart(s);
    if m != "" { assert m[|m| - 1] in m; }
    if Clean(Clean(s)) != Clean(s) { UnstableIsShielded(s); }
  }

  lemma StrippedIsPart(s: string)
    ensures forall x :: x in Stripped(s) ==> x in s
  {
    hide IsSpace, TrimSpace;
    var a := TrimSpace(s);
    var b := TrimEnd(a, LIST_ENDS);
    var c := Unquote(b);
    TrimSpaceIsPart(s);
    TrimEndShrinks(a, LIST_ENDS);
    TrimEndShrinks(c, QUOTED_ENDS);
    assert forall x :: x in TrimEnd(c, QUOTED_ENDS) ==> x in c;
    assert forall x :: x in c ==> x in b;
    assert forall x :: x in b ==> x in a;
  }

  lemma TrimSpaceIsPart(s: string)
    ensures forall x :: x in TrimSpace(s) ==> x in s
  {
    hide IsSpace;
    TrimLeftShrinks(s);
    TrimRightShrinks(TrimLeft(s));
  }

  /** In general cleaning is not stable: here a comma hidden behind a line feed inside quotes
      survives the first cleaning and not the second. */
  lemma CleaningCanDrift()
    ensures Clean("\"a,\n\"") == "a," && Clean("a,") == "a"
  {
    assert Stripped("\"a,\n\"") == "a,\n" by { QuotedIsStripped(); }
    assert TrimRight("a,\n") == "a,";
    assert Clean("a,") == "a" by { CommaIsStripped(); }
    hide Stripped;
  }

  lemma QuotedIsStripped()
    ensures Stripped("\"a,\n\"") == "a,\n"
  {
    var s := "\"a,\n\"";
    assert TrimSpace(s) == s && TrimEnd(s, LIST_ENDS) == s && Unquote(s) == "a,\n";
    assert TrimEnd("a,\n", QUOTED_ENDS) == "a,\n";
  }

  lemma CommaIsStripped()
    ensures Clean("a,") == "a"
  {
    assert TrimSpace("a,") == "a," && TrimEnd("a,", LIST_ENDS) == "a";
  }
}
