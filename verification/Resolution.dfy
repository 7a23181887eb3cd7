/** Identifier resolution: partial session identifiers over an unordered map, and sandbox
    sessions by identifier or backend reference. */
module Resolution {
  import opened Seqs
  import opened StringOrder

  // ---------------------------------------------------------------- session identifiers

  datatype Outcome = Resolved(id: string) | NoMatch | Ambiguous(matches: seq<string>)

  function Matches(keys: set<string>, partial: string): set<string> {
    set id | id in keys && partial <= id
  }

  /** The outcome for a key set, with no reference to any iteration order. */
  ghost predicate IsOutcome(keys: set<string>, partial: string, out: Outcome) {
    match out
    case Resolved(id) => if partial in keys then id == partial else Matches(keys, partial) == {id}
    case NoMatch => partial !in keys && Matches(keys, partial) == {}
    case Ambiguous(ms) =>
      && partial !in keys && |ms| >= 2 && Sorted(ms) && multiset(ms) == multiset(Matches(keys, partial))
  }

  function PrefixTest(partial: string): string -> bool { (id: string) => HasPrefix(id, partial) }

  /** The keys arrive in map iteration order, which is arbitrary. */
  method ResolveSessionID(order: seq<string>, partial: string) returns (out: Outcome)
    requires NoDup(order)
    ensures IsOutcome(Elems(order), partial, out)
  {
    if partial in order {
      return Resolved(partial);
    }
    var matches: seq<string> := [];
    for i := 0 to |order|
      invariant matches == Filter(order[..i], PrefixTest(partial))
    {
      FilterStep(order, i, PrefixTest(partial));
      if HasPrefix(order[i], partial) {
        matches := matches + [order[i]];
      }
    }
    assert order[..|order|] == order;
    MatchesOfOrder(order, partial);
    if |matches| == 0 {
      out := NoMatch;
    } else if |matches| == 1 {
      assert matches == [matches[0]];
      out := Resolved(matches[0]);
    } else {
      var sorted := SortStrings(matches);
      assert |multiset(sorted)| == |multiset(matches)|;
      out := Ambiguous(sorted);
    }
  }

  lemma {:induction false} MatchesOfOrder(order: seq<string>, partial: string)
    requires NoDup(order)
    ensures var ms := Filter(order, PrefixTest(partial));
      Elems(ms) == Matches(Elems(order), partial) && multiset(ms) == multiset(Matches(Elems(order), partial))
  {
    var ms := Filter(order, PrefixTest(partial));
    FilterMembers(order, PrefixTest(partial));
    FilterKeepsNoDup(order, PrefixTest(partial));
    NoDupMultiset(ms);
  }

  lemma {:induction false} FilterKeepsNoDup(s: seq<string>, p: string -> bool)
    requires NoDup(s)
    ensures NoDup(Filter(s, p))
  {
    if s != [] {
      var init := s[..|s| - 1];
      FilterKeepsNoDup(init, p);
      FilterMembers(init, p);
      assert s[|s| - 1] !in init;
    }
  }

  lemma {:induction false} NoDupMultiset(s: seq<string>)
    requires NoDup(s)
    ensures multiset(s) == multiset(Elems(s))
  {
    if s == [] {
      assert Elems(s) == {};
    } else {
      var init, last := s[..|s| - 1], s[|s| - 1];
      assert NoDup(init) && last !in Elems(init);
      hide NoDup, Elems;
      NoDupMultiset(init);
      AppendFresh(init, last);
      OneMore(Elems(init), last);
      assert s == init + [last];
    }
  }

  lemma OneMore(a: set<string>, x: string)
    requires x !in a
    ensures multiset(a + {x}) == multiset(a) + multiset{x}
  {
  }

  /** Any two iteration orders of the same keys give the same outcome, error text included. */
  lemma OutcomeIsOrderIndependent(keys: set<string>, partial: string, a: Outcome, b: Outcome)
    requires IsOutcome(keys, partial, a) && IsOutcome(keys, partial, b)
    ensures a == b
  {
    var ms := Matches(keys, partial);
    assert a.Ambiguous? ==> |multiset(a.matches)| >= 2;
    assert b.Ambiguous? ==> |multiset(b.matches)| >= 2;
    if a.Ambiguous? && b.Ambiguous? {
      SortedUnique(a.matches, b.matches);
    }
  }

  /** An exact match beats longer keys; ambiguity is reported exactly when there is no exact
      match and at least two prefix matches. */
  lemma WhenAmbiguous(keys: set<string>, partial: string, out: Outcome)
    requires IsOutcome(keys, partial, out)
    ensures partial in keys ==> out == Resolved(partial)
    ensures out.Ambiguous? <==> partial !in keys && |Matches(keys, partial)| >= 2
    ensures out.NoMatch? <==> partial !in keys && Matches(keys, partial) == {}
  {
    assert HasPrefix(partial, partial);
    if out.Ambiguous? {
      assert |multiset(out.matches)| == |multiset(Matches(keys, partial))| == |Matches(keys, partial)|;
    }
    if partial in keys {
      assert partial in Matches(keys, partial);
    }
  }

  // ---------------------------------------------------------------- sandbox sessions

  datatype Session = Session(id: string, ref: string, template: string)

  datatype Lookup = Found(session: Session) | NotFound | Several

  predicate Exact(s: Session, x: string) { s.id == x || s.ref == x }

  predicate Prefixed(s: Session, x: string) { HasPrefix(s.id, x) || HasPrefix(s.ref, x) }

  function ExactTest(x: string): Session -> bool { (s: Session) => Exact(s, x) }

  function PrefixedTest(x: string): Session -> bool { (s: Session) => Prefixed(s, x) }

  /** The first exact match, else the only prefix match. */
  function Resolve(sessions: seq<Session>, x: string): Lookup {
    Pick(Filter(sessions, ExactTest(x)), Filter(sessions, PrefixedTest(x)))
  }

  function Pick(exact: seq<Session>, prefixed: seq<Session>): Lookup {
    if exact != [] then Found(exact[0])
    else if |prefixed| > 1 then Several
    else if |prefixed| == 1 then Found(prefixed[0])
    else NotFound
  }

  method ResolveDockerSession(sessions: seq<Session>, x: string) returns (r: Lookup)
    ensures r == Resolve(sessions, x)
  {
    for i := 0 to |sessions|
      invariant Filter(sessions[..i], ExactTest(x)) == []
    {
      FilterStep(sessions, i, ExactTest(x));
      if sessions[i].id == x || sessions[i].ref == x {
        FilterPrefix(sessions, i + 1, ExactTest(x));
        return Found(sessions[i]);
      }
    }
    assert sessions[..|sessions|] == sessions;
    var found: Option<Session> := None;
    for i := 0 to |sessions|
      invariant Filter(sessions[..i], PrefixedTest(x)) == (if found.Some? then [found.value] else [])
    {
      FilterStep(sessions, i, PrefixedTest(x));
      if HasPrefix(sessions[i].id, x) || HasPrefix(sessions[i].ref, x) {
        if found.Some? {
          FilterPrefix(sessions, i + 1, PrefixedTest(x));
          return Several;
        }
        found := Some(sessions[i]);
      }
    }
    r := if found.Some? then Found(found.value) else NotFound;
  }

  lemma {:induction false} FilterPrefix<T>(s: seq<T>, n: nat, p: T -> bool)
    requires n <= |s|
    ensures Filter(s[..n], p) <= Filter(s, p)
    decreases |s| - n
  {
    if n < |s| {
      FilterStep(s, n, p);
      FilterPrefix(s, n + 1, p);
    } else {
      assert s[..n] == s;
    }
  }

  lemma {:induction false} FilterMultiset(s: seq<Session>, p: Session -> bool, v: Session)
    ensures multiset(Filter(s, p))[v] == if p(v) then multiset(s)[v] else 0
  {
    if s != [] {
      FilterMultiset(s[..|s| - 1], p, v);
      assert s == s[..|s| - 1] + [s[|s| - 1]];
    }
  }

  lemma FilterOfPermutation(s: seq<Session>, t: seq<Session>, p: Session -> bool)
    requires multiset(s) == multiset(t)
    ensures multiset(Filter(s, p)) == multiset(Filter(t, p)) && |Filter(s, p)| == |Filter(t, p)|
  {
    forall v ensures multiset(Filter(s, p))[v] == multiset(Filter(t, p))[v] {
      FilterMultiset(s, p, v);
      FilterMultiset(t, p, v);
    }
    assert |multiset(Filter(s, p))| == |Filter(s, p)|;
  }

  /** All exact matches are the same session. */
  ghost predicate OneExactMatch(sessions: seq<Session>, x: string) {
    forall s, t :: s in sessions && t in sessions && Exact(s, x) && Exact(t, x) ==> s == t
  }

  /** The listing order never matters exactly when no two different sessions match exactly. */
  lemma OrderMattersOnlyForExactTies(sessions: seq<Session>, x: string)
    ensures OneExactMatch(sessions, x) <==>
            forall t :: multiset(t) == multiset(sessions) ==> Resolve(t, x) == Resolve(sessions, x)
  {
    if OneExactMatch(sessions, x) {
      forall t | multiset(t) == multiset(sessions) ensures Resolve(t, x) == Resolve(sessions, x) {
        SameOnPermutation(sessions, t, x);
      }
    } else {
      var t := TieBreaks(sessions, x);
    }
  }

  lemma SameOnPermutation(s: seq<Session>, t: seq<Session>, x: string)
    requires multiset(s) == multiset(t) && OneExactMatch(s, x)
    ensures Resolve(s, x) == Resolve(t, x)
  {
    FilterOfPermutation(s, t, ExactTest(x));
    FilterOfPermutation(s, t, PrefixedTest(x));
    FilterMembers(s, ExactTest(x));
    hide Filter, Pick, PrefixedTest, Exact;
    SamePick(Filter(s, ExactTest(x)), Filter(t, ExactTest(x)), Filter(s, PrefixedTest(x)), Filter(t, PrefixedTest(x)));
  }

  lemma SamePick(a: seq<Session>, b: seq<Session>, c: seq<Session>, d: seq<Session>)
    requires multiset(a) == multiset(b) && |a| == |b| && multiset(c) == multiset(d) && |c| == |d|
    requires forall u, v :: u in a && v in a ==> u == v
    ensures Pick(a, c) == Pick(b, d)
  {
    if a != [] {
      assert b[0] in multiset(b) && b[0] in multiset(a) && b[0] in a && a[0] in a;
    } else if |c| == 1 {
      assert d[0] in multiset(d) && d[0] in multiset(c);
    }
  }

  lemma FirstExact(s: Session, rest: seq<Session>, x: string)
    requires Exact(s, x)
    ensures Resolve([s] + rest, x) == Found(s)
  {
    var t := [s] + rest;
    FilterPrefix(t, 1, ExactTest(x));
    assert t[..1] == [s] && [s][..0] == [];
  }

  lemma MoveToFront(s: seq<Session>, i: nat)
    requires i < |s|
    ensures multiset([s[i]] + (s[..i] + s[i + 1..])) == multiset(s)
  {
    assert s == s[..i] + [s[i]] + s[i + 1..];
  }

  lemma TieBreaks(s: seq<Session>, x: string) returns (t: seq<Session>)
    requires !OneExactMatch(s, x)
    ensures multiset(t) == multiset(s) && Resolve(t, x) != Resolve(s, x)
  {
    FilterMembers(s, ExactTest(x));
    var exact := Filter(s, ExactTest(x));
    hide Exact, Filter;
    var a, b :| a in s && b in s && Exact(a, x) && Exact(b, x) && a != b;
    assert a in exact && Resolve(s, x) == Found(exact[0]);
    hide Resolve, Pick;
    var other := if a == exact[0] then b else a;
    var i :| 0 <= i < |s| && s[i] == other;
    MoveToFront(s, i);
    var rest := s[..i] + s[i + 1..];
    t := [other] + rest;
    FirstExact(other, rest, x);
  }

  function TemplateSessionID(name: string): string {
    "template-" + (if HasPrefix(name, "@") then name[1..] else name)
  }

  /** Prefix resolution can answer with a session that is not the one named: exactly when
      nothing matches exactly and a single session matches as a proper prefix. */
  lemma WhenResolutionIsInexact(sessions: seq<Session>, x: string, s: Session)
    ensures Resolve(sessions, x) == Found(s) && !Exact(s, x) <==>
            (forall t :: t in sessions ==> !Exact(t, x)) && Filter(sessions, PrefixedTest(x)) == [s]
  {
    FilterMembers(sessions, ExactTest(x));
    var exact := Filter(sessions, ExactTest(x));
    var prefixed := Filter(sessions, PrefixedTest(x));
    FilterMembers(sessions, PrefixedTest(x));
    if exact != [] {
      assert exact[0] in exact;
    }
    if |prefixed| == 1 {
      assert prefixed == [prefixed[0]];
      assert prefixed[0] in prefixed;
    }
  }

  /** The identifier or the reference of the session is the text asked for. */
  predicate Is(s: Session, x: string) { s.id == x || s.ref == x }

  /** The identifier or the reference of the session starts with it. */
  predicate Starts(s: Session, x: string) { x <= s.id || x <= s.ref }

  /** Session i is the first that is exactly the one asked for. */
  ghost predicate FirstExactAt(sessions: seq<Session>, x: string, i: nat) {
    i < |sessions| && Is(sessions[i], x) && forall j :: 0 <= j < i ==> !Is(sessions[j], x)
  }

  /** Session i is the only one that starts with it. */
  ghost predicate OnlyPrefixAt(sessions: seq<Session>, x: string, i: nat) {
    i < |sessions| && Starts(sessions[i], x) && forall j :: 0 <= j < |sessions| && j != i ==> !Starts(sessions[j], x)
  }

  /** The answer, in terms of positions in the listing: the first exact match; without one the
      only prefix match; several prefix matches are an error, and none means not found. */
  lemma ResolutionMeans(sessions: seq<Session>, x: string, i: nat)
    ensures FirstExactAt(sessions, x, i) ==> Resolve(sessions, x) == Found(sessions[i])
    ensures (forall s :: s in sessions ==> !Is(s, x)) && OnlyPrefixAt(sessions, x, i) ==>
      Resolve(sessions, x) == Found(sessions[i])
    ensures Resolve(sessions, x) == NotFound <==> forall s :: s in sessions ==> !Starts(s, x)
    ensures Resolve(sessions, x) == Several <==>
      (forall s :: s in sessions ==> !Is(s, x)) && TwoStart(sessions, x)
  {
    var exact, prefixed := Filter(sessions, ExactTest(x)), Filter(sessions, PrefixedTest(x));
    FilterMembers(sessions, ExactTest(x));
    FilterMembers(sessions, PrefixedTest(x));
    var ps := FilterPositions(sessions, ExactTest(x));
    var qs := FilterPositions(sessions, PrefixedTest(x));
    hide Filter;
    if exact != [] { assert exact[0] in exact; }
    if prefixed != [] { assert prefixed[0] in prefixed; }
    if FirstExactAt(sessions, x, i) {
      assert sessions[i] in exact && i in ps;
      assert sessions[ps[0]] in exact;
    }
    ManyPositions(sessions, prefixed, qs, x);
    if OnlyPrefixAt(sessions, x, i) {
      assert sessions[i] in prefixed && i in qs;
      assert |prefixed| >= 1;
      assert sessions[qs[0]] in prefixed;
      assert qs[0] == i;
    }
  }

  ghost predicate TwoStart(sessions: seq<Session>, x: string) {
    exists j, k :: 0 <= j < k < |sessions| && Starts(sessions[j], x) && Starts(sessions[k], x)
  }

  lemma ManyPositions(sessions: seq<Session>, prefixed: seq<Session>, positions: seq<nat>, x: string)
    requires Takes(prefixed, sessions, positions) && forall s :: s in prefixed <==> s in sessions && Starts(s, x)
    ensures |prefixed| >= 2 <==> TwoStart(sessions, x)
  {
    hide Starts;
    if |prefixed| >= 2 {
      assert prefixed[0] in prefixed && prefixed[1] in prefixed;
      assert positions[0] < positions[1];
      assert Starts(sessions[positions[0]], x) && Starts(sessions[positions[1]], x);
    }
    if TwoStart(sessions, x) { TwoTaken(sessions, prefixed, positions, x); }
  }

  lemma TwoTaken(sessions: seq<Session>, prefixed: seq<Session>, positions: seq<nat>, x: string)
    requires Takes(prefixed, sessions, positions) && forall s :: s in prefixed <==> s in sessions && Starts(s, x)
    requires TwoStart(sessions, x)
    ensures |prefixed| >= 2
  {
    hide Starts;
    var j, k :| 0 <= j < k < |sessions| && Starts(sessions[j], x) && Starts(sessions[k], x);
    assert sessions[j] in prefixed && sessions[k] in prefixed;
    assert j in positions && k in positions;
  }

  /** So deleting template "py" while only "python" has a session resolves to the latter. */
  lemma DeleteCanHitAnotherTemplate()
    ensures var python := Session("template-python", "container-1", "python");
            Resolve([python], TemplateSessionID("py")) == Found(python)
  {
    var python := Session("template-python", "container-1", "python");
    var x := TemplateSessionID("py");
    assert "py"[0] != '@';
    assert x == "template-py";
    assert [python][..0] == [];
    assert "template-python"[..11] == "template-py";
    assert python.id != x by { assert |python.id| != |x|; }
  }
}
