/** The choice among versioned asset directories, and when it is the newest one. */
module DistChoice {
  import opened Seqs
  import opened Decimal
  import opened StringOrder
  import opened VersionOrder
  import opened SemanticVersions
  import opened UpdateCheck

  datatype Entry = Entry(name: string, isDir: bool)

  datatype Assets = NoAssets | Versioned(dir: string) | Unversioned

  predicate HasDir(entries: seq<Entry>) { exists e :: e in entries && e.isDir }

  /** The directory whose name is last in string order; without directories, the unversioned
      files if their index page opens. */
  method ResolveDist(readable: bool, entries: seq<Entry>, hasIndex: bool) returns (a: Assets)
    ensures !readable || entries == [] ==> a == NoAssets
    ensures readable && entries != [] && !HasDir(entries) ==> a == if hasIndex then Unversioned else NoAssets
    ensures readable && HasDir(entries) ==>
      a.Versioned? && Entry(a.dir, true) in entries && forall e :: e in entries && e.isDir ==> Leq(e.name, a.dir)
  {
    if !readable || entries == [] { return NoAssets; }
    var dirs := [];
    for i := 0 to |entries|
      invariant forall d :: d in dirs ==> Entry(d, true) in entries
      invariant forall k :: 0 <= k < i && entries[k].isDir ==> entries[k].name in dirs
    {
      if entries[i].isDir {
        assert entries[i] == Entry(entries[i].name, true);
        dirs := dirs + [entries[i].name];
      }
    }
    if |dirs| > 0 {
      var sorted := SortStrings(dirs);
      LastIsGreatest(dirs, sorted);
      return Versioned(sorted[|sorted| - 1]);
    }
    a := if hasIndex then Unversioned else NoAssets;
  }

  lemma LastIsGreatest(dirs: seq<string>, sorted: seq<string>)
    requires Sorted(sorted) && multiset(sorted) == multiset(dirs) && dirs != []
    ensures sorted != [] && sorted[|sorted| - 1] in dirs
    ensures forall d :: d in dirs ==> Leq(d, sorted[|sorted| - 1])
  {
    hide Less;
    assert dirs[0] in multiset(dirs);
    forall d | d in dirs ensures Leq(d, sorted[|sorted| - 1]) {
      assert d in multiset(sorted);
    }
    assert sorted[|sorted| - 1] in multiset(sorted);
  }

  // ---------------------------------------------------------------- string order of versions

  /** Texts of one length compare before whatever follows them. */
  lemma {:induction false} LessOfEqualLengths(a: string, b: string, s: string, t: string)
    requires |a| == |b|
    ensures Less(a + s, b + t) <==> if a == b then Less(s, t) else Less(a, b)
  {
    if a == "" {
      assert a + s == s && b + t == t;
    } else {
      LessOfEqualLengths(a[1..], b[1..], s, t);
      assert (a + s)[1..] == a[1..] + s && (b + t)[1..] == b[1..] + t;
      assert a[0] == b[0] ==> (a == b <==> a[1..] == b[1..]);
    }
  }

  lemma {:induction false} DigitsOrder(a: string, b: string)
    requires AllDigits(a) && AllDigits(b) && |a| == |b|
    ensures Less(a, b) <==> Value(a) < Value(b)
  {
    if a != "" {
      var i := |a| - 1;
      DigitsOrder(a[..i], b[..i]);
      LessOfEqualLengths(a[..i], b[..i], a[i..], b[i..]);
      assert a == a[..i] + a[i..] && b == b[..i] + b[i..];
      if Value(a[..i]) == Value(b[..i]) { DigitsInjective(a[..i], b[..i]); }
      assert a[i..][1..] == "" && b[i..][1..] == "";
    }
  }

  lemma {:induction false} DigitsInjective(a: string, b: string)
    requires AllDigits(a) && AllDigits(b) && |a| == |b| && Value(a) == Value(b)
    ensures a == b
  {
    if a != "" {
      var i := |a| - 1;
      assert Value(a) == 10 * Value(a[..i]) + DigitValue(a[i]) && Value(b) == 10 * Value(b[..i]) + DigitValue(b[i]);
      hide Value;
      LastDigits(Value(a[..i]), DigitValue(a[i]), Value(b[..i]), DigitValue(b[i]));
      DigitsInjective(a[..i], b[..i]);
      assert a == a[..i] + [a[i]] && b == b[..i] + [b[i]];
    }
  }

  lemma LastDigits(m: nat, d: nat, n: nat, e: nat)
    requires 10 * m + d == 10 * n + e && d < 10 && e < 10
    ensures m == n && d == e
  {
  }

  /** Corresponding components have equally many digits. */
  predicate SameWidths(a: Version, b: Version) {
    && |Itoa(a.major)| == |Itoa(b.major)| && |Itoa(a.minor)| == |Itoa(b.minor)| && |Itoa(a.patch)| == |Itoa(b.patch)|
  }

  lemma NumeralsOrder(m: nat, n: nat, s: string, t: string)
    requires |Itoa(m)| == |Itoa(n)|
    ensures Less(Itoa(m) + s, Itoa(n) + t) <==> m < n || (m == n && Less(s, t))
  {
    hide Itoa, Less, Value;
    LessOfEqualLengths(Itoa(m), Itoa(n), s, t);
    DigitsOrder(Itoa(m), Itoa(n));
    ValueOfItoa(m);
    ValueOfItoa(n);
  }

  lemma DottedOrder(s: string, t: string)
    ensures Less("." + s, "." + t) <==> Less(s, t)
  {
    LessOfEqualLengths(".", ".", s, t);
  }

  /** With equal widths string order is core order, then the order of the suffixes. */
  lemma ShowOrder(a: Version, b: Version)
    requires SameWidths(a, b)
    ensures Less(Show(a), Show(b)) <==> if SameCore(a, b) then Less(Suffix(a), Suffix(b)) else CoreLess(a, b)
  {
    hide Itoa, Less, Suffix;
    var pa, pb := Itoa(a.patch) + Suffix(a), Itoa(b.patch) + Suffix(b);
    var ma, mb := Itoa(a.minor) + ("." + pa), Itoa(b.minor) + ("." + pb);
    assert Show(a) == Itoa(a.major) + ("." + ma) && Show(b) == Itoa(b.major) + ("." + mb);
    NumeralsOrder(a.major, b.major, "." + ma, "." + mb);
    DottedOrder(ma, mb);
    NumeralsOrder(a.minor, b.minor, "." + pa, "." + pb);
    DottedOrder(pa, pb);
    NumeralsOrder(a.patch, b.patch, Suffix(a), Suffix(b));
  }

  /** The release a pre-release leads up to. */
  function Release(v: Version): Version { v.(pre := []) }

  /** Among versions whose corresponding components have equally many digits, the directory
      picked leaves one of higher precedence behind exactly when it is a pre-release and either
      its own release is there, or a later pre-release of the same core. */
  lemma PickedIsNewest(vs: seq<Version>, d: Version)
    requires d in vs && forall v :: v in vs ==> SameWidths(v, d) && Leq(Show(v), Show(d))
    ensures (exists v :: v in vs && Precedes(d, v)) <==>
      d.pre != [] && (Release(d) in vs || exists v :: v in vs && SameCore(d, v) && PreLess(d.pre, v.pre))
  {
    hide SameWidths, Show, Less, PreLess;
    forall v | v in vs && Precedes(d, v)
      ensures d.pre != [] && (v == Release(d) || (SameCore(d, v) && PreLess(d.pre, v.pre)))
    {
      PrecedingPick(d, v);
    }
    if d.pre != [] && Release(d) in vs {
      assert Precedes(d, Release(d));
    }
    if v :| v in vs && d.pre != [] && SameCore(d, v) && PreLess(d.pre, v.pre) {
      assert Precedes(d, v);
    }
  }

  lemma PrecedingPick(d: Version, v: Version)
    requires SameWidths(v, d) && Leq(Show(v), Show(d)) && Precedes(d, v)
    ensures SameCore(d, v) && d.pre != [] && (v == Release(d) || PreLess(d.pre, v.pre))
  {
    ShowOrder(d, v);
    LessIrreflexive(Show(d));
    if Less(Show(v), Show(d)) && Less(Show(d), Show(v)) { LessTransitive(Show(d), Show(v), Show(d)); }
    hide SameWidths, Show, Less, PreLess;
  }

  // ---------------------------------------------------------------- string order of pre-releases

  /** Identifiers whose string order is their precedence, whatever follows them. */
  predicate Alike(a: string, b: string) {
    && AllDigits(a) == AllDigits(b)
    && (|a| == |b| || (!AllDigits(a) && '-' !in a && '-' !in b))
  }

  predicate AllAlike(a: seq<string>, b: seq<string>) {
    a == [] || b == [] || (Alike(a[0], b[0]) && AllAlike(a[1..], b[1..]))
  }

  /** What follows an identifier: nothing, or a dot and more. */
  predicate IsTail(s: string) { s == "" || s[0] == '.' }

  /** Without hyphens every character is above the dot, so the shorter text comes first. */
  lemma {:induction false} LessBeforeTails(a: string, b: string, s: string, t: string)
    requires (forall c :: c in a + b ==> c > '.') && IsTail(s) && IsTail(t)
    ensures Less(a + s, b + t) <==> if a == b then Less(s, t) else Less(a, b)
  {
    if a == "" || b == "" {
      assert a == "" ==> a + s == s;
      assert b == "" ==> b + t == t;
      if b != "" { assert b[0] in a + b; }
      if a != "" { assert a[0] in a + b; }
    } else {
      assert forall c :: c in a[1..] + b[1..] ==> c in a + b;
      LessBeforeTails(a[1..], b[1..], s, t);
      assert (a + s)[1..] == a[1..] + s && (b + t)[1..] == b[1..] + t;
      assert a[0] == b[0] ==> (a == b <==> a[1..] == b[1..]);
    }
  }

  lemma IdentifierOrder(a: string, b: string, s: string, t: string)
    requires IsIdentifier(a) && IsIdentifier(b) && Alike(a, b) && IsTail(s) && IsTail(t)
    ensures Less(a + s, b + t) <==> if a == b then Less(s, t) else IdentifierLess(a, b)
  {
    hide Less, Value;
    if |a| == |b| {
      LessOfEqualLengths(a, b, s, t);
      if AllDigits(a) { DigitsOrder(a, b); }
    } else {
      forall c | c in a + b ensures c > '.' {
        assert c in a || c in b;
        assert IsIdentifierChar(c) && c != '-';
      }
      LessBeforeTails(a, b, s, t);
    }
  }

  /** The rest of a list of identifiers after its first one. */
  function Tail(ids: seq<string>): string
    requires ids != []
  {
    if |ids| == 1 then "" else "." + Join(ids[1..])
  }

  lemma JoinIsTail(ids: seq<string>)
    requires ids != []
    ensures Join(ids) == ids[0] + Tail(ids) && IsTail(Tail(ids))
    ensures |ids| == 1 ==> Tail(ids) == ""
    ensures |ids| > 1 ==> Tail(ids) == "." + Join(ids[1..])
  {
    if |ids| == 1 { assert ids[0] + "" == ids[0]; }
  }

  lemma TailOrder(a: seq<string>, b: seq<string>)
    requires a != [] && b != []
    ensures |a| > 1 && |b| > 1 ==> (Less(Tail(a), Tail(b)) <==> Less(Join(a[1..]), Join(b[1..])))
    ensures |a| == 1 || |b| == 1 ==> (Less(Tail(a), Tail(b)) <==> |b| > 1)
  {
    JoinIsTail(a);
    JoinIsTail(b);
    if |a| > 1 && |b| > 1 { DottedOrder(Join(a[1..]), Join(b[1..])); }
    hide Join, Tail;
  }

  lemma {:induction false} JoinOrder(a: seq<string>, b: seq<string>)
    requires a != [] && b != [] && AllAlike(a, b)
    requires forall id :: id in a + b ==> IsIdentifier(id)
    ensures Less(Join(a), Join(b)) <==> PreLess(a, b)
  {
    assert a[0] in a + b && b[0] in a + b;
    JoinIsTail(a);
    JoinIsTail(b);
    TailOrder(a, b);
    hide IsIdentifier, Alike, IdentifierLess, Less, Join, Tail;
    IdentifierOrder(a[0], b[0], Tail(a), Tail(b));
    if |a| > 1 && |b| > 1 {
      assert forall id :: id in a[1..] + b[1..] ==> id in a + b;
      JoinOrder(a[1..], b[1..]);
    }
  }

  /** The other pre-releases of the picked version's core have identifiers alike its own. */
  ghost predicate AlikeSiblings(vs: seq<Version>, d: Version) {
    forall v :: v in vs && SameCore(d, v) ==> AllAlike(d.pre, v.pre)
  }

  /** Then only the release can be left behind. */
  lemma PickedAmongAlike(vs: seq<Version>, d: Version)
    requires d in vs && forall v :: v in vs ==> Valid(v) && SameWidths(v, d) && Leq(Show(v), Show(d))
    requires AlikeSiblings(vs, d)
    ensures (exists v :: v in vs && Precedes(d, v)) <==> d.pre != [] && Release(d) in vs
  {
    PickedIsNewest(vs, d);
    hide SameWidths, Show, Less, PreLess, Valid, AllAlike;
    if v :| v in vs && d.pre != [] && SameCore(d, v) && PreLess(d.pre, v.pre) {
      LaterSiblingSortsLater(d, v);
      assert false;
    }
  }

  lemma LaterSiblingSortsLater(d: Version, v: Version)
    requires Valid(d) && Valid(v) && SameCore(d, v) && d.pre != [] && PreLess(d.pre, v.pre) && AllAlike(d.pre, v.pre)
    ensures !Leq(Show(v), Show(d))
  {
    assert v.pre != [];
    JoinOrder(d.pre, v.pre);
    ShowOrder(d, v);
    DashOrder(Join(d.pre), Join(v.pre));
    LessIrreflexive(Show(d));
    if Less(Show(v), Show(d)) { LessTransitive(Show(d), Show(v), Show(d)); }
    hide Show, Less, PreLess, Valid, AllAlike, Join;
  }

  lemma DashOrder(s: string, t: string)
    ensures Less("-" + s, "-" + t) <==> Less(s, t)
  {
    LessOfEqualLengths("-", "-", s, t);
  }

  /** A pre-release always sorts after the release it leads up to, betas included, so that
      1.0.0-beta is picked over 1.0.0. */
  lemma PrereleaseHidesRelease(d: Version)
    requires d.pre != []
    ensures Less(Show(Release(d)), Show(d)) && Precedes(d, Release(d))
  {
    ShowOrder(Release(d), d);
    hide Show, PreLess;
  }

  lemma BetaHidesRelease(beta: Version, release: Version)
    requires beta == Version(1, 0, 0, ["beta"]) && release == Version(1, 0, 0, [])
    ensures Less(Show(release), Show(beta)) && Precedes(beta, release) && !IsNewer(Show(release), Show(beta))
  {
    hide Show, PreLess, Less, IsNewer, MentionsBeta, Precedes, Valid, Names;
    assert release == Release(beta);
    PrereleaseHidesRelease(beta);
    BetaIsMentioned(beta);
    BetaIsValid(beta);
    BetaIsValid(release);
    ShownIsNamed(beta);
    ShownIsNamed(release);
    SuggestionMeansPrecedence(release, beta, Show(release), Show(beta));
  }

  lemma BetaIsValid(v: Version)
    requires v.pre == ["beta"] || v.pre == []
    ensures Valid(v)
  {
  }

  lemma ShownIsNamed(v: Version)
    requires Valid(v)
    ensures Names(Show(v), v)
  {
    ShowIsTrimmed(v);
    hide Show;
  }

  lemma BetaIsMentioned(v: Version)
    requires v.pre == ["beta"]
    ensures MentionsBeta(Show(v))
  {
    var i := |Core(v)| + 1;
    hide Core;
    assert Suffix(v) == "-beta";
    assert Show(v) == Core(v) + "-beta";
    assert Show(v)[i] == 'b' && Show(v)[i + 1] == 'e' && Show(v)[i + 2] == 't' && Show(v)[i + 3] == 'a';
    assert BetaAt(Show(v), i);
  }

  /** Identifiers of different lengths: 1.0.0-rc.9 sorts after 1.0.0-rc.10. */
  lemma LengthsMatter(older: Version, newer: Version)
    requires older == Version(1, 0, 0, ["rc", "9"]) && newer == Version(1, 0, 0, ["rc", "10"])
    ensures Less(Show(newer), Show(older)) && Precedes(older, newer)
  {
    assert Join(["9"]) == "9" && Join(["10"]) == "10";
    assert ["rc", "9"][1..] == ["9"] && ["rc", "10"][1..] == ["10"];
    assert Suffix(newer) == "-rc." + "10" && Suffix(older) == "-rc." + "9";
    LessOfEqualLengths("-rc.", "-rc.", "10", "9");
    ShowOrder(newer, older);
    assert Value("9") == 9 by { assert "9"[..0] == ""; }
    assert Value("10") == 10 by { assert "10"[..1] == "1" && "1"[..0] == ""; }
    assert AllDigits("9") && AllDigits("10") && "9" != "10";
    hide Show, Less, Value;
    assert PreLess(["9"], ["10"]);
    assert PreLess(older.pre, newer.pre);
  }

  // ---------------------------------------------------------------- the condition on the listing alone

  /** The versions of the greatest core. */
  ghost predicate IsTop(vs: seq<Version>, v: Version) { v in vs && forall w :: w in vs ==> !CoreLess(v, w) }

  /** The pre-release that sorts last among the greatest core's versions. */
  ghost predicate SortsLast(vs: seq<Version>, p: Version) {
    IsTop(vs, p) && p.pre != [] && forall q :: IsTop(vs, q) ==> Leq(Suffix(q), Suffix(p))
  }

  /** A release beside a pre-release of the greatest core. */
  ghost predicate ReleaseBeside(vs: seq<Version>) {
    exists p, r :: IsTop(vs, p) && IsTop(vs, r) && p.pre != [] && r.pre == []
  }

  /** The pre-releases of the greatest core are not sorted by precedence at the end. */
  ghost predicate Misordered(vs: seq<Version>) {
    exists p, q :: SortsLast(vs, p) && IsTop(vs, q) && PreLess(p.pre, q.pre)
  }

  /** The directory picked leaves one of higher precedence behind exactly when the greatest core
      of the listing has a pre-release and either its release as well, or a pre-release after
      the one that sorts last. */
  lemma PickedByListing(vs: seq<Version>, d: Version)
    requires d in vs && forall v :: v in vs ==> Valid(v) && SameWidths(v, d) && Leq(Show(v), Show(d))
    ensures (exists v :: v in vs && Precedes(d, v)) <==> ReleaseBeside(vs) || Misordered(vs)
  {
    PickedIsNewest(vs, d);
    PickedIsTop(vs, d);
    hide SameWidths, Show, Less, PreLess, Valid, Suffix, IsTop, ReleaseBeside, Misordered, Precedes;
    if d.pre != [] && Release(d) in vs { BesideItsRelease(vs, d); }
    if v :| v in vs && d.pre != [] && SameCore(d, v) && PreLess(d.pre, v.pre) { LaterSibling(vs, d, v); }
    if ReleaseBeside(vs) { ReleaseIsThere(vs, d); }
    if Misordered(vs) {
      var v := LaterSiblingIsThere(vs, d);
    }
  }

  /** The picked version is of the greatest core and sorts last in it. */
  ghost predicate TopPick(vs: seq<Version>, d: Version) {
    IsTop(vs, d) && forall q :: IsTop(vs, q) ==> SameCore(d, q) && Leq(Suffix(q), Suffix(d))
  }

  lemma BesideItsRelease(vs: seq<Version>, d: Version)
    requires IsTop(vs, d) && d.pre != [] && Release(d) in vs
    ensures ReleaseBeside(vs)
  {
    assert IsTop(vs, Release(d));
  }

  lemma LaterSibling(vs: seq<Version>, d: Version, v: Version)
    requires TopPick(vs, d) && d.pre != [] && v in vs && SameCore(d, v) && PreLess(d.pre, v.pre)
    ensures Misordered(vs)
  {
    hide PreLess, Less, Suffix;
    assert SortsLast(vs, d);
    assert IsTop(vs, v);
  }

  lemma ReleaseIsThere(vs: seq<Version>, d: Version)
    requires TopPick(vs, d) && ReleaseBeside(vs)
    ensures d.pre != [] && Release(d) in vs
  {
    hide Less, Suffix;
    var p, r :| IsTop(vs, p) && IsTop(vs, r) && p.pre != [] && r.pre == [];
    PickedHasPre(d, p);
    assert r == Release(d);
  }

  lemma LaterSiblingIsThere(vs: seq<Version>, d: Version) returns (v: Version)
    requires TopPick(vs, d) && Misordered(vs) && forall v :: v in vs ==> Valid(v)
    ensures v in vs && d.pre != [] && SameCore(d, v) && PreLess(d.pre, v.pre)
  {
    hide Less, Suffix, PreLess, Valid;
    var p, q :| SortsLast(vs, p) && IsTop(vs, q) && PreLess(p.pre, q.pre);
    PickedHasPre(d, p);
    OneSortsLast(d, p);
    v := q;
  }

  lemma PickedIsTop(vs: seq<Version>, d: Version)
    requires d in vs && forall v :: v in vs ==> SameWidths(v, d) && Leq(Show(v), Show(d))
    ensures TopPick(vs, d)
  {
    forall v | v in vs ensures !CoreLess(d, v) && (SameCore(d, v) ==> Leq(Suffix(v), Suffix(d))) {
      NoGreaterCore(v, d);
    }
    hide SameWidths, Show, Less, Suffix;
  }

  lemma NoGreaterCore(v: Version, d: Version)
    requires SameWidths(v, d) && Leq(Show(v), Show(d))
    ensures !CoreLess(d, v) && (SameCore(d, v) ==> Leq(Suffix(v), Suffix(d)))
  {
    ShowOrder(d, v);
    ShowOrder(v, d);
    LessTotal(Suffix(v), Suffix(d));
    LessIrreflexive(Show(d));
    if Less(Show(v), Show(d)) && Less(Show(d), Show(v)) { LessTransitive(Show(d), Show(v), Show(d)); }
    hide Less, Suffix, SameWidths, Show;
  }

  lemma PickedHasPre(d: Version, p: Version)
    requires p.pre != [] && Leq(Suffix(p), Suffix(d))
    ensures d.pre != []
  {
    hide Join;
    assert Suffix(p) != "";
  }

  lemma OneSortsLast(d: Version, p: Version)
    requires Valid(d) && Valid(p) && SameCore(d, p) && d.pre != [] && p.pre != []
    requires Leq(Suffix(p), Suffix(d)) && Leq(Suffix(d), Suffix(p))
    ensures d == p
  {
    LessIrreflexive(Suffix(d));
    if Suffix(d) != Suffix(p) { LessTransitive(Suffix(d), Suffix(p), Suffix(d)); }
    hide Less, Join;
    assert Suffix(d)[1..] == Join(d.pre) && Suffix(p)[1..] == Join(p.pre);
    JoinInjective(d.pre, p.pre);
  }

  lemma {:induction false} JoinInjective(a: seq<string>, b: seq<string>)
    requires a != [] && b != [] && Join(a) == Join(b)
    requires forall id :: id in a + b ==> IsIdentifier(id)
    ensures a == b
  {
    assert a[0] in a + b && b[0] in a + b;
    JoinIsTail(a);
    JoinIsTail(b);
    NoDot(a[0]);
    NoDot(b[0]);
    hide Join, Tail, IsIdentifier, IsTail;
    SameSplit(a[0], Tail(a), b[0], Tail(b));
    if |a| > 1 && |b| > 1 {
      assert Tail(a)[1..] == Join(a[1..]) && Tail(b)[1..] == Join(b[1..]);
      assert forall id :: id in a[1..] + b[1..] ==> id in a + b;
      JoinInjective(a[1..], b[1..]);
    }
    SameParts(a, b);
  }

  lemma SameParts(a: seq<string>, b: seq<string>)
    requires a != [] && b != [] && a[0] == b[0] && |a| == |b| && (|a| > 1 ==> a[1..] == b[1..])
    ensures a == b
  {
    assert a == [a[0]] + a[1..] && b == [b[0]] + b[1..];
  }

  lemma SameSplit(h: string, s: string, k: string, t: string)
    requires '.' !in h && '.' !in k && IsTail(s) && IsTail(t) && h + s == k + t
    ensures h == k && s == t
  {
    SplitAtDot(h, s);
    SplitAtDot(k, t);
    hide IndexOf, IsTail;
  }

  lemma NoDot(id: string)
    requires IsIdentifier(id)
    ensures '.' !in id
  {
  }

  lemma SplitAtDot(head: string, tail: string)
    requires '.' !in head && IsTail(tail)
    ensures IndexOf(head + tail, '.') == |head| && (head + tail)[..|head|] == head && (head + tail)[|head|..] == tail
  {
    if tail == "" {
      assert head + tail == head;
      IndexOfAbsent(head, '.');
    } else {
      CutRejoins(head, '.', tail[1..]);
      assert head + tail == head + ['.'] + tail[1..];
    }
    hide IndexOf;
  }

  // ---------------------------------------------------------------- by the update check's own order

  /** Measured by the update check, which never suggests leaving a beta and knows no order
      between pre-releases of one core, only one case remains. */
  lemma PickedBySuggestion(vs: seq<Version>, d: Version)
    requires d in vs && forall v :: v in vs ==> Valid(v) && InRange(v) && SameWidths(v, d)
    requires forall v :: v in vs ==> Leq(Show(v), Show(d))
    ensures (exists v :: v in vs && IsNewer(Show(v), Show(d))) <==>
      d.pre != [] && !MentionsBeta(Show(d)) && Release(d) in vs
  {
    hide InRange, SameWidths, Valid, IsNewer, Show, MentionsBeta, Less;
    if v :| v in vs && IsNewer(Show(v), Show(d)) {
      NewerThanPicked(v, d);
    }
    if d.pre != [] && !MentionsBeta(Show(d)) && Release(d) in vs {
      ReleaseIsNewer(d);
    }
  }

  lemma ReleaseIsNewer(d: Version)
    requires Valid(d) && Valid(Release(d)) && InRange(d) && d.pre != [] && !MentionsBeta(Show(d))
    ensures IsNewer(Show(Release(d)), Show(d))
  {
    hide IsNewer, Show, MentionsBeta, PreLess;
    ShowIsTrimmed(d);
    ShowIsTrimmed(Release(d));
    SuggestionMeansPrecedence(Release(d), d, Show(Release(d)), Show(d));
  }

  lemma NewerThanPicked(v: Version, d: Version)
    requires Valid(v) && Valid(d) && InRange(v) && InRange(d) && SameWidths(v, d)
    requires Leq(Show(v), Show(d)) && IsNewer(Show(v), Show(d))
    ensures d.pre != [] && !MentionsBeta(Show(d)) && v == Release(d)
  {
    hide IsNewer, MentionsBeta, PreLess, InRange, Show, Less, SameWidths;
    ShownIsNamed(v);
    ShownIsNamed(d);
    hide Names;
    SuggestionMeansPrecedence(v, d, Show(v), Show(d));
    PrecedingPick(d, v);
  }

  /** With unequal widths the string order picks the older release. */
  lemma WidthsMatter(older: Version, newer: Version)
    requires older == Version(1, 9, 0, []) && newer == Version(1, 10, 0, [])
    ensures Less(Show(newer), Show(older)) && IsNewer(Show(newer), Show(older))
  {
    assert Itoa(1) == "1" && Itoa(9) == "9" && Itoa(0) == "0";
    assert Itoa(10) == "1" + "0";
    NumeralsOrder(1, 1, "." + (Itoa(10) + ("." + Itoa(0))), "." + (Itoa(9) + ("." + Itoa(0))));
    DottedOrder(Itoa(10) + ("." + Itoa(0)), Itoa(9) + ("." + Itoa(0)));
    assert Show(newer) == Itoa(1) + ("." + (Itoa(10) + ("." + Itoa(0))));
    assert Show(older) == Itoa(1) + ("." + (Itoa(9) + ("." + Itoa(0))));
    hide Itoa, Less;
    NoBetaInDigits(older);
    ShowIsTrimmed(older);
    ShowIsTrimmed(newer);
    hide Show, IsNewer, MentionsBeta;
    SuggestionMeansPrecedence(newer, older, Show(newer), Show(older));
  }
}
