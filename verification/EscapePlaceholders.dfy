/** Placeholder escaping: one left-to-right, non-overlapping pass that turns every
    {text} into <text>. */
module EscapePlaceholders {

  predicate IsBrace(c: char) { c == '{' || c == '}' }

  /** The first brace at or after i, or the length. */
  function NextBrace(s: string, i: nat): (j: nat)
    requires i <= |s|
    ensures i <= j <= |s|
    ensures j < |s| ==> IsBrace(s[j])
    ensures forall k :: i <= k < j ==> !IsBrace(s[k])
    decreases |s| - i
  {
    if i == |s| || IsBrace(s[i]) then i else NextBrace(s, i + 1)
  }

  /** A match of the pattern starts at i: an opening brace, at least one character that is
      no brace, a closing brace. */
  predicate MatchAt(s: string, i: nat) {
    i < |s| && s[i] == '{' && var j := NextBrace(s, i + 1); j < |s| && s[j] == '}' && j >= i + 2
  }

  function EscapeFrom(s: string, i: nat): string
    requires i <= |s|
    decreases |s| - i
  {
    if i == |s| then ""
    else if MatchAt(s, i) then
      var j := NextBrace(s, i + 1);
      "<" + s[i + 1..j] + ">" + EscapeFrom(s, j + 1)
    else [s[i]] + EscapeFrom(s, i + 1)
  }

  function EscapeCurlyPlaceholders(s: string): string { EscapeFrom(s, 0) }

  // ---------------------------------------------------------------- pointwise

  /** A match ends at k. */
  ghost predicate ClosesAt(s: string, k: nat) {
    exists i :: 0 <= i < k < |s| && MatchAt(s, i) && NextBrace(s, i + 1) == k
  }

  /** The brace at k is part of a placeholder. */
  ghost predicate Consumed(s: string, k: nat) { MatchAt(s, k) || ClosesAt(s, k) }

  ghost function Rewritten(s: string, k: nat): char
    requires k < |s|
  {
    if MatchAt(s, k) then '<' else if ClosesAt(s, k) then '>' else s[k]
  }

  /** An opening brace at k is rewritten exactly when the next brace to its right closes at
      distance at least two; a closing one exactly when the next brace to its left opens so. */
  lemma RewrittenByNeighbours(s: string, k: nat)
    requires k < |s|
    ensures MatchAt(s, k) <==>
      (s[k] == '{' && exists j :: k + 2 <= j < |s| && s[j] == '}' && NoBraceBetween(s, k, j))
    ensures ClosesAt(s, k) <==>
      (s[k] == '}' && exists i :: 0 <= i && i + 2 <= k && s[i] == '{' && NoBraceBetween(s, i, k))
  {
    if s[k] == '{' {
      if j :| k + 2 <= j < |s| && s[j] == '}' && NoBraceBetween(s, k, j) {
        NextBraceIs(s, k, j);
      }
    }
    if i :| 0 <= i && i + 2 <= k && s[i] == '{' && NoBraceBetween(s, i, k) && s[k] == '}' {
      NextBraceIs(s, i, k);
      assert MatchAt(s, i);
    }
  }

  ghost predicate NoBraceBetween(s: string, i: nat, j: nat)
    requires j <= |s|
  {
    forall k :: i < k < j ==> !IsBrace(s[k])
  }

  lemma NextBraceIs(s: string, i: nat, j: nat)
    requires i < j < |s| && IsBrace(s[j]) && NoBraceBetween(s, i, j)
    ensures NextBrace(s, i + 1) == j
  {
  }

  /** Every match that starts before i also ends before it. */
  ghost predicate Between(s: string, i: nat) {
    forall p :: 0 <= p < i && MatchAt(s, p) ==> NextBrace(s, p + 1) < i
  }

  lemma ConsumedIsBrace(s: string, k: nat)
    requires k < |s| && !IsBrace(s[k])
    ensures Rewritten(s, k) == s[k]
  {
  }

  lemma StillBetween(s: string, i: nat)
    requires i < |s| && Between(s, i)
    ensures MatchAt(s, i) ==> Between(s, NextBrace(s, i + 1) + 1) && Rewritten(s, NextBrace(s, i + 1)) == '>'
    ensures !MatchAt(s, i) ==> Between(s, i + 1) && Rewritten(s, i) == s[i]
  {
    if MatchAt(s, i) {
      assert ClosesAt(s, NextBrace(s, i + 1));
    }
  }

  /** The rewritten characters from i on. */
  ghost function RewrittenFrom(s: string, i: nat): (r: string)
    requires i <= |s|
    ensures |r| == |s| - i
  {
    seq(|s| - i, k requires 0 <= k < |s| - i => Rewritten(s, i + k))
  }

  lemma RewrittenMatch(s: string, i: nat)
    requires MatchAt(s, i) && Between(s, i)
    ensures var j := NextBrace(s, i + 1);
      RewrittenFrom(s, i) == "<" + s[i + 1..j] + ">" + RewrittenFrom(s, j + 1)
  {
    var j := NextBrace(s, i + 1);
    StillBetween(s, i);
    assert Rewritten(s, i) == '<';
    hide Rewritten, MatchAt, Between, RewrittenFrom;
    forall k | i < k < j ensures Rewritten(s, k) == s[k] { ConsumedIsBrace(s, k); }
    hide NextBrace;
    RewrittenCons(s, i);
    UnchangedUpTo(s, i + 1, j);
    RewrittenCons(s, j);
    Join3("<", s[i + 1..j], ">", RewrittenFrom(s, j + 1));
  }

  lemma RewrittenCons(s: string, i: nat)
    requires i < |s|
    ensures RewrittenFrom(s, i) == [Rewritten(s, i)] + RewrittenFrom(s, i + 1)
  {
    CutAt(s, i, i + 1);
    assert RewrittenFrom(s, i)[0] == Rewritten(s, i + 0);
    hide Rewritten, RewrittenFrom;
  }

  lemma UnchangedUpTo(s: string, i: nat, j: nat)
    requires i <= j <= |s| && forall k :: i <= k < j ==> Rewritten(s, k) == s[k]
    ensures RewrittenFrom(s, i) == s[i..j] + RewrittenFrom(s, j)
  {
    hide Rewritten, RewrittenFrom;
    CutAt(s, i, j);
    UnchangedPart(s, i, j);
  }

  lemma CutAt(s: string, i: nat, j: nat)
    requires i <= j <= |s|
    ensures RewrittenFrom(s, i) == RewrittenFrom(s, i)[..j - i] + RewrittenFrom(s, j)
  {
    hide Rewritten;
    var r, t := RewrittenFrom(s, i), RewrittenFrom(s, j);
    forall k | 0 <= k < |t| ensures r[j - i + k] == t[k] {
      assert i + (j - i + k) == j + k;
    }
  }

  lemma UnchangedPart(s: string, i: nat, j: nat)
    requires i <= j <= |s| && forall k :: i <= k < j ==> Rewritten(s, k) == s[k]
    ensures RewrittenFrom(s, i)[..j - i] == s[i..j]
  {
    hide Rewritten;
    forall k | 0 <= k < j - i ensures RewrittenFrom(s, i)[k] == s[i + k] {
      assert Rewritten(s, i + k) == s[i + k];
    }
  }

  lemma Join3(a: string, b: string, c: string, d: string)
    ensures a + (b + (c + d)) == a + b + c + d
  {
  }

  lemma RewrittenStep(s: string, i: nat)
    requires i < |s| && Between(s, i) && !MatchAt(s, i)
    ensures RewrittenFrom(s, i) == [s[i]] + RewrittenFrom(s, i + 1)
  {
    StillBetween(s, i);
    hide Rewritten, MatchAt, Between;
    assert Rewritten(s, i + 0) == s[i];
  }

  lemma {:induction false} ScanIsPointwise(s: string, i: nat)
    requires i <= |s| && Between(s, i)
    ensures EscapeFrom(s, i) == RewrittenFrom(s, i)
    decreases |s| - i
  {
    hide RewrittenFrom, Between;
    if i < |s| {
      StillBetween(s, i);
      if MatchAt(s, i) {
        RewrittenMatch(s, i);
        ScanIsPointwise(s, NextBrace(s, i + 1) + 1);
      } else {
        RewrittenStep(s, i);
        ScanIsPointwise(s, i + 1);
      }
    }
  }

  /** The pass keeps the length and rewrites exactly the braces of placeholders. */
  lemma EscapeIsPointwise(s: string)
    ensures |EscapeCurlyPlaceholders(s)| == |s|
    ensures forall k :: 0 <= k < |s| ==> EscapeCurlyPlaceholders(s)[k] == Rewritten(s, k)
  {
    ScanIsPointwise(s, 0);
    forall k | 0 <= k < |s| ensures RewrittenFrom(s, 0)[k] == Rewritten(s, k) {
      assert RewrittenFrom(s, 0)[k] == Rewritten(s, 0 + k);
    }
  }

  // ---------------------------------------------------------------- progress

  function Braces(s: string): set<nat> { set k: nat | k < |s| && IsBrace(s[k]) }

  ghost predicate HasPlaceholder(s: string) { exists i :: 0 <= i < |s| && MatchAt(s, i) }

  /** A pass changes the text exactly when there is a placeholder, and then strictly lowers
      the number of braces; no brace appears anywhere new. */
  lemma EachChangeLowersBraces(s: string)
    ensures EscapeCurlyPlaceholders(s) != s <==> HasPlaceholder(s)
    ensures Braces(EscapeCurlyPlaceholders(s)) <= Braces(s)
    ensures EscapeCurlyPlaceholders(s) != s ==> |Braces(EscapeCurlyPlaceholders(s))| < |Braces(s)|
  {
    var t := EscapeCurlyPlaceholders(s);
    EscapeIsPointwise(s);
    hide EscapeCurlyPlaceholders, NextBrace;
    if i :| 0 <= i < |s| && MatchAt(s, i) {
      assert t[i] == '<';
      assert i as nat in Braces(s) && i as nat !in Braces(t);
      StrictlyFewer(Braces(t), Braces(s));
    } else {
      forall k | 0 <= k < |s| ensures t[k] == s[k] {
      }
      assert t == s;
    }
  }

  lemma StrictlyFewer(a: set<nat>, b: set<nat>)
    requires a < b
    ensures |a| < |b|
  {
    assert b == a + (b - a);
    assert b - a != {};
  }

  // ---------------------------------------------------------------- what one pass leaves

  /** Every brace of the text belongs to one of its placeholders. */
  ghost predicate OnlyPlaceholders(t: string) {
    forall k :: 0 <= k < |t| && IsBrace(t[k]) ==> Consumed(t, k)
  }

  /** Braces around a text that contains placeholders and no other brace. */
  ghost predicate Nested(s: string, i: nat, j: nat) {
    i < j < |s| && s[i] == '{' && s[j] == '}' &&
    HasPlaceholder(s[i + 1..j]) && OnlyPlaceholders(s[i + 1..j])
  }

  /** Matches inside a slice are matches of the whole text. */
  lemma SliceMatch(s: string, lo: nat, hi: nat, k: nat)
    requires lo <= hi <= |s| && k < hi - lo
    ensures MatchAt(s[lo..hi], k) ==> MatchAt(s, lo + k) && NextBrace(s, lo + k + 1) == lo + NextBrace(s[lo..hi], k + 1)
    ensures MatchAt(s, lo + k) && NextBrace(s, lo + k + 1) < hi ==>
      MatchAt(s[lo..hi], k) && NextBrace(s, lo + k + 1) == lo + NextBrace(s[lo..hi], k + 1)
  {
    var t := s[lo..hi];
    if MatchAt(t, k) {
      var j := NextBrace(t, k + 1);
      NextBraceIs(s, lo + k, lo + j);
    }
    if MatchAt(s, lo + k) && NextBrace(s, lo + k + 1) < hi {
      NextBraceIs(t, k, NextBrace(s, lo + k + 1) - lo);
    }
  }

  lemma SliceOpening(s: string, i: nat, j: nat, k: nat)
    requires i < k < j < |s| && IsBrace(s[j]) && !Consumed(s, j) && MatchAt(s, k)
    ensures MatchAt(s[i + 1..j], k - i - 1) && NextBrace(s, k + 1) < j
    ensures NextBrace(s, k + 1) == i + 1 + NextBrace(s[i + 1..j], k - i)
  {
    var c := NextBrace(s, k + 1);
    assert ClosesAt(s, c);
    assert c != j && c < j;
    SliceMatch(s, i + 1, j, k - i - 1);
  }

  /** Inside surviving braces, whatever is consumed in the text is consumed in the slice. */
  lemma SliceConsumes(s: string, i: nat, j: nat, k: nat)
    requires i < k < j < |s| && IsBrace(s[i]) && IsBrace(s[j]) && !Consumed(s, i) && !Consumed(s, j)
    requires Consumed(s, k)
    ensures Consumed(s[i + 1..j], k - i - 1) && HasPlaceholder(s[i + 1..j])
  {
    hide NextBrace;
    if MatchAt(s, k) {
      SliceOpening(s, i, j, k);
    } else {
      var p :| 0 <= p < k && MatchAt(s, p) && NextBrace(s, p + 1) == k;
      assert p > i;
      SliceOpening(s, i, j, p);
      assert ClosesAt(s[i + 1..j], k - i - 1);
    }
  }

  /** A placeholder left by one pass came from braces around placeholders. */
  lemma LeftoverIsNested(s: string, i: nat)
    requires MatchAt(EscapeCurlyPlaceholders(s), i)
    ensures Nested(s, i, NextBrace(EscapeCurlyPlaceholders(s), i + 1))
  {
    var out := EscapeCurlyPlaceholders(s);
    EscapeIsPointwise(s);
    hide EscapeCurlyPlaceholders;
    var j := NextBrace(out, i + 1);
    assert Rewritten(s, i) == '{' && Rewritten(s, j) == '}';
    assert !Consumed(s, i) && !Consumed(s, j) && s[i] == '{' && s[j] == '}';
    forall k | i < k < j && IsBrace(s[k]) ensures Consumed(s, k) {
      assert out[k] == Rewritten(s, k);
    }
    SurvivorsNest(s, i, j);
  }

  lemma SurvivorsNest(s: string, i: nat, j: nat)
    requires i + 2 <= j < |s| && s[i] == '{' && s[j] == '}' && !Consumed(s, i) && !Consumed(s, j)
    requires forall k :: i < k < j && IsBrace(s[k]) ==> Consumed(s, k)
    ensures Nested(s, i, j)
  {
    BraceBetween(s, i, j);
    var inner :| i < inner < j && IsBrace(s[inner]);
    SliceConsumes(s, i, j, inner);
    InnerBracesConsumed(s, i, j);
  }

  lemma InnerBracesConsumed(s: string, i: nat, j: nat)
    requires i + 2 <= j < |s| && IsBrace(s[i]) && IsBrace(s[j]) && !Consumed(s, i) && !Consumed(s, j)
    requires forall k :: i < k < j && IsBrace(s[k]) ==> Consumed(s, k)
    ensures OnlyPlaceholders(s[i + 1..j])
  {
    hide Consumed, HasPlaceholder;
    var t := s[i + 1..j];
    forall k | 0 <= k < |t| && IsBrace(t[k]) ensures Consumed(t, k) {
      SliceConsumes(s, i, j, i + 1 + k);
    }
  }

  /** Unconsumed braces at distance two or more have a brace between them. */
  lemma BraceBetween(s: string, i: nat, j: nat)
    requires i + 2 <= j < |s| && s[i] == '{' && s[j] == '}' && !Consumed(s, i)
    ensures exists k :: i < k < j && IsBrace(s[k])
  {
    if forall k :: i < k < j ==> !IsBrace(s[k]) {
      NextBraceIs(s, i, j);
    }
  }

  lemma FirstBraceOpens(t: string, k: nat)
    requires OnlyPlaceholders(t) && k < |t| && IsBrace(t[k]) && forall m :: 0 <= m < k ==> !IsBrace(t[m])
    ensures t[k] == '{'
  {
    assert Consumed(t, k);
  }

  lemma LastBraceCloses(t: string, k: nat)
    requires OnlyPlaceholders(t) && k < |t| && IsBrace(t[k]) && forall m :: k < m < |t| ==> !IsBrace(t[m])
    ensures t[k] == '}'
  {
    assert Consumed(t, k);
  }

  lemma SliceConsumesBack(s: string, lo: nat, hi: nat, k: nat)
    requires lo <= hi <= |s| && k < hi - lo && Consumed(s[lo..hi], k)
    ensures Consumed(s, lo + k)
  {
    var t := s[lo..hi];
    SliceMatch(s, lo, hi, k);
    if !MatchAt(t, k) {
      var p :| 0 <= p < k && MatchAt(t, p) && NextBrace(t, p + 1) == k;
      SliceMatch(s, lo, hi, p);
      assert ClosesAt(s, lo + k);
    }
  }

  /** Braces around placeholders become a placeholder after one pass. */
  lemma NestedIsLeftOver(s: string, i: nat, j: nat)
    requires Nested(s, i, j)
    ensures MatchAt(EscapeCurlyPlaceholders(s), i)
  {
    var out := EscapeCurlyPlaceholders(s);
    EscapeIsPointwise(s);
    hide EscapeCurlyPlaceholders, NextBrace, Rewritten, OnlyPlaceholders;
    var first :| 0 <= first < |s[i + 1..j]| && MatchAt(s[i + 1..j], first);
    OuterBracesSurvive(s, i, j, first);
    KeptBraces(s, i, j);
    hide MatchAt, IsBrace;
    forall k | i < k < j ensures !IsBrace(out[k]) {
      InsideIsCleared(s, i, j, k);
    }
    hide Nested;
    EndsMatch(out, i, j);
  }

  lemma KeptBraces(s: string, i: nat, j: nat)
    requires i < j < |s| && s[i] == '{' && s[j] == '}' && !Consumed(s, i) && !Consumed(s, j)
    ensures Rewritten(s, i) == '{' && Rewritten(s, j) == '}'
  {
    hide MatchAt, NextBrace;
  }

  lemma EndsMatch(t: string, i: nat, j: nat)
    requires i + 1 < j < |t| && t[i] == '{' && t[j] == '}' && forall k :: i < k < j ==> !IsBrace(t[k])
    ensures MatchAt(t, i)
  {
    NextBraceIs(t, i, j);
    hide NextBrace;
  }

  /** Every brace between nested ones is rewritten. */
  lemma InsideIsCleared(s: string, i: nat, j: nat, k: nat)
    requires Nested(s, i, j) && i < k < j
    ensures !IsBrace(Rewritten(s, k))
  {
    hide MatchAt, NextBrace;
    var t := s[i + 1..j];
    assert s[k] == t[k - i - 1];
    if IsBrace(s[k]) {
      assert Consumed(t, k - i - 1);
      SliceConsumesBack(s, i + 1, j, k - i - 1);
    } else {
      ConsumedIsBrace(s, k);
    }
  }

  lemma OuterBracesSurvive(s: string, i: nat, j: nat, inner: nat)
    requires Nested(s, i, j) && inner < |s[i + 1..j]| && MatchAt(s[i + 1..j], inner)
    ensures !Consumed(s, i) && !Consumed(s, j)
  {
    var t := s[i + 1..j];
    var a, z := InnerEnds(t, inner);
    hide Nested, MatchAt, IsBrace, Consumed, OnlyPlaceholders;
    forall k | i < k < i + 1 + a ensures !IsBrace(s[k]) { assert t[k - i - 1] == s[k]; }
    forall k | i + 1 + z < k < j ensures !IsBrace(s[k]) { assert t[k - i - 1] == s[k]; }
    OpeningSurvives(s, i, i + 1 + a);
    ClosingSurvives(s, j, i + 1 + z);
  }

  /** The first and last braces of a text that consists of placeholders. */
  lemma InnerEnds(t: string, inner: nat) returns (a: nat, z: nat)
    requires OnlyPlaceholders(t) && inner < |t| && IsBrace(t[inner])
    ensures a < |t| && z < |t| && t[a] == '{' && t[z] == '}'
    ensures forall k :: 0 <= k < a ==> !IsBrace(t[k])
    ensures forall k :: z < k < |t| ==> !IsBrace(t[k])
  {
    hide OnlyPlaceholders, IsBrace;
    a := FirstInner(t, inner);
    z := LastInner(t, inner);
  }

  lemma FirstInner(t: string, inner: nat) returns (a: nat)
    requires OnlyPlaceholders(t) && inner < |t| && IsBrace(t[inner])
    ensures a < |t| && t[a] == '{' && forall k :: 0 <= k < a ==> !IsBrace(t[k])
  {
    a := NextBrace(t, 0);
    hide NextBrace, OnlyPlaceholders, IsBrace;
    assert a <= inner;
    FirstBraceOpens(t, a);
  }

  lemma LastInner(t: string, inner: nat) returns (z: nat)
    requires OnlyPlaceholders(t) && inner < |t| && IsBrace(t[inner])
    ensures z < |t| && t[z] == '}' && forall k :: z < k < |t| ==> !IsBrace(t[k])
  {
    z := LastBrace(t, |t|);
    hide LastBrace, OnlyPlaceholders, IsBrace;
    assert inner < z;
    z := z - 1;
    LastBraceCloses(t, z);
  }

  lemma OpeningSurvives(s: string, i: nat, a: nat)
    requires i < a < |s| && s[i] == '{' && s[a] == '{' && NoBraceBetween(s, i, a)
    ensures !Consumed(s, i)
  {
    NextBraceIs(s, i, a);
  }

  lemma ClosingSurvives(s: string, j: nat, z: nat)
    requires z < j < |s| && s[j] == '}' && s[z] == '}' && NoBraceBetween(s, z, j)
    ensures !Consumed(s, j)
  {
    forall p | 0 <= p < j && MatchAt(s, p) ensures NextBrace(s, p + 1) != j {
      assert p < z;
    }
  }

  /** One past the last brace before hi, or zero. */
  function LastBrace(s: string, hi: nat): (z: nat)
    requires hi <= |s|
    ensures z <= hi
    ensures z > 0 ==> IsBrace(s[z - 1])
    ensures forall k :: z <= k < hi ==> !IsBrace(s[k])
  {
    if hi == 0 || IsBrace(s[hi - 1]) then hi else LastBrace(s, hi - 1)
  }

  /** One pass leaves a placeholder exactly when one is nested inside other braces. */
  lemma OnePassSufficesUnlessNested(s: string)
    ensures HasPlaceholder(EscapeCurlyPlaceholders(s)) <==> exists i, j :: Nested(s, i, j)
  {
    EscapeIsPointwise(s);
    if i :| 0 <= i < |EscapeCurlyPlaceholders(s)| && MatchAt(EscapeCurlyPlaceholders(s), i) {
      LeftoverIsNested(s, i);
    }
    if i, j :| Nested(s, i, j) {
      NestedIsLeftOver(s, i, j);
    }
  }

  /** The simplest nested case: two passes are needed. */
  lemma DoubleBracesNeedTwoPasses()
    ensures HasPlaceholder(EscapeCurlyPlaceholders("{{a}}"))
  {
    var s := "{{a}}";
    var t := s[1..4];
    assert t == "{a}";
    NextBraceIs(t, 0, 2);
    assert MatchAt(t, 0) && ClosesAt(t, 2);
    assert OnlyPlaceholders(t);
    assert Nested(s, 0, 4);
    NestedIsLeftOver(s, 0, 4);
    EscapeIsPointwise(s);
  }
}
