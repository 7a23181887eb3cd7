/** The update check's version comparison. */
module VersionOrder {
  import opened Seqs
  import opened Trimming
  import opened Decimal

  const MAX_UINT64 := 0xFFFF_FFFF_FFFF_FFFF
  const MAX_INT64 := 0x7FFF_FFFF_FFFF_FFFF

  function TrimV(s: string): string { if s != "" && s[0] == 'v' then s[1..] else s }

  /** Reading a numeral digit by digit into 64 unsigned bits: overflow is noticed as soon as
      it happens, even when a later character is no digit. */
  datatype Scanned = Number(n: nat) | NotANumeral | Overflow

  function Scan(s: string): Scanned {
    if s == "" then Number(0)
    else
      var before := Scan(s[..|s| - 1]);
      if !before.Number? then before
      else if !IsDigit(s[|s| - 1]) then NotANumeral
      else
        var n := 10 * before.n + DigitValue(s[|s| - 1]);
        if n > MAX_UINT64 then Overflow else Number(n)
  }

  /** The integer a component is read as, errors ignored: text that is no numeral reads as
      zero, a number too large for 64 signed bits as the nearest one that fits. */
  function Atoi(s: string): int {
    var signed := s != "" && (s[0] == '-' || s[0] == '+');
    var digits := if signed then s[1..] else s;
    if digits == "" then 0 else
    var negative := signed && s[0] == '-';
    match Scan(digits)
    case NotANumeral => 0
    case Overflow => if negative then -MAX_INT64 - 1 else MAX_INT64
    case Number(n) =>
      if negative then (if n > MAX_INT64 then -MAX_INT64 - 1 else -(n as int))
      else if n > MAX_INT64 then MAX_INT64 else n
  }

  datatype Semver = Semver(major: int, minor: int, patch: int, pre: string)

  function ParsePatch(patch: string): (int, string) {
    var dash := IndexOf(patch, '-');
    (Atoi(patch[..dash]), if dash < |patch| then patch[dash + 1..] else "")
  }

  /** The components after the major one. */
  function ParseMinor(rest: string): (int, int, string) {
    var dot := IndexOf(rest, '.');
    var minor := Atoi(rest[..dot]);
    if dot == |rest| then (minor, 0, "") else
    var (patch, pre) := ParsePatch(rest[dot + 1..]);
    (minor, patch, pre)
  }

  function ParseTrimmed(v: string): Semver {
    var dot := IndexOf(v, '.');
    var major := Atoi(v[..dot]);
    if dot == |v| then Semver(major, 0, 0, "") else
    var (minor, patch, pre) := ParseMinor(v[dot + 1..]);
    Semver(major, minor, patch, pre)
  }

  function Parse(text: string): Semver { ParseTrimmed(TrimV(TrimSpace(text))) }

  function Lower(c: char): char {
    if 'A' <= c <= 'Z' then (c as nat + 32) as char else c
  }

  predicate MentionsBeta(s: string) {
    exists i :: 0 <= i < |s| - 3 && BetaAt(s, i)
  }

  predicate BetaAt(s: string, i: nat)
    requires i + 3 < |s|
  {
    Lower(s[i]) == 'b' && Lower(s[i + 1]) == 'e' && Lower(s[i + 2]) == 't' && Lower(s[i + 3]) == 'a'
  }

  /** Whether an update is ever suggested to this current version. */
  predicate Upgradable(current: string) {
    var text := TrimSpace(TrimV(TrimSpace(current)));
    text != "" && IsDigit(text[0]) && !MentionsBeta(text)
  }

  predicate Above(l: Semver, c: Semver) {
    if l.major != c.major then l.major > c.major
    else if l.minor != c.minor then l.minor > c.minor
    else if l.patch != c.patch then l.patch > c.patch
    else c.pre != "" && l.pre == ""
  }

  predicate IsNewer(latest: string, current: string) {
    Upgradable(current) && Above(Parse(latest), Parse(current))
  }

  /** On all strings, well-formed or not, the comparison is a strict order, and a version in
      between two comparable ones never breaks a suggestion. */
  lemma NewerIsStrictWeakOrder(a: string, b: string, c: string)
    ensures !IsNewer(a, a)
    ensures IsNewer(a, b) ==> !IsNewer(b, a)
    ensures IsNewer(a, b) && IsNewer(b, c) ==> IsNewer(a, c)
    ensures IsNewer(a, c) && Upgradable(b) ==> IsNewer(a, b) || IsNewer(b, c)
  {
    hide Parse, Upgradable;
  }

  /** Builds without a version, "dev" and "" among them, never get a suggestion. */
  lemma UnnumberedBuildsStaySilent(latest: string, current: string)
    requires var text := TrimSpace(current); text == "" || (text[0] != 'v' && !('0' <= text[0] <= '9'))
    ensures !IsNewer(latest, current)
  {
    hide Parse, Above;
    TrimmedTwice(current);
    hide TrimSpace;
  }

  lemma DevelopmentBuilds(latest: string)
    ensures !IsNewer(latest, "dev") && !IsNewer(latest, "")
  {
    assert "dev"[0] == 'd' && "dev"[2] == 'v';
    UnnumberedBuildsStaySilent(latest, "dev");
    UnnumberedBuildsStaySilent(latest, "");
  }

  /** The word counts in any mixture of cases. */
  lemma BetaInAnyCase(s: string, i: nat)
    requires i + 3 < |s|
    ensures BetaAt(s, i) <==>
      (s[i] == 'b' || s[i] == 'B') && (s[i + 1] == 'e' || s[i + 1] == 'E') &&
      (s[i + 2] == 't' || s[i + 2] == 'T') && (s[i + 3] == 'a' || s[i + 3] == 'A')
  {
    LowerMeans(s[i]);
    LowerMeans(s[i + 1]);
    LowerMeans(s[i + 2]);
    LowerMeans(s[i + 3]);
    hide Lower;
  }

  lemma LowerMeans(c: char)
    ensures Lower(c) == 'b' <==> c == 'b' || c == 'B'
    ensures Lower(c) == 'e' <==> c == 'e' || c == 'E'
    ensures Lower(c) == 't' <==> c == 't' || c == 'T'
    ensures Lower(c) == 'a' <==> c == 'a' || c == 'A'
  {
  }

  lemma LetterIsKept(c: char)
    requires Lower(c) == 'b' || Lower(c) == 'e' || Lower(c) == 't' || Lower(c) == 'a'
    ensures !IsSpace(c) && c != 'v'
  {
  }

  lemma LettersStay(s: string, k: nat, i: nat, j: nat)
    requires i <= j <= |s| && k + 3 < |s| && BetaAt(s, k)
    requires forall m :: 0 <= m < i || j <= m < |s| ==> IsSpace(s[m]) || s[m] == 'v'
    ensures i <= k && k + 3 < j && BetaAt(s[i..j], k - i)
  {
    LetterIsKept(s[k]);
    LetterIsKept(s[k + 1]);
    LetterIsKept(s[k + 2]);
    LetterIsKept(s[k + 3]);
    hide IsSpace, Lower;
    var t := s[i..j];
    assert t[k - i] == s[k] && t[k - i + 1] == s[k + 1] && t[k - i + 2] == s[k + 2] && t[k - i + 3] == s[k + 3];
  }

  lemma TrimmedBeta(s: string)
    requires MentionsBeta(s)
    ensures MentionsBeta(TrimSpace(s)) && MentionsBeta(TrimV(s))
  {
    var k :| 0 <= k < |s| - 3 && BetaAt(s, k);
    var i, j := TrimSpaceCuts(s);
    LettersStay(s, k, i, j);
    LettersStay(s, k, |s| - |TrimV(s)|, |s|);
    hide TrimSpace, BetaAt, IsSpace;
    assert BetaAt(TrimSpace(s), k - i);
    assert s[|s| - |TrimV(s)|..|s|] == TrimV(s);
  }

  /** A current version that mentions beta, in whatever case, never gets a suggestion. */
  lemma BetaBuildsStaySilent(latest: string, current: string)
    requires MentionsBeta(current)
    ensures !IsNewer(latest, current)
  {
    TrimmedBeta(current);
    TrimmedBeta(TrimSpace(current));
    TrimmedBeta(TrimV(TrimSpace(current)));
    hide TrimSpace, TrimV, MentionsBeta, Parse, Above;
  }
}

/** Versions and their precedence as section 11 of Semantic Versioning 2.0.0 defines it. */
module SemanticVersions {
  import opened Decimal
  import opened StringOrder

  datatype Version = Version(major: nat, minor: nat, patch: nat, pre: seq<string>)

  predicate IsIdentifierChar(c: char) {
    IsDigit(c) || 'a' <= c <= 'z' || 'A' <= c <= 'Z' || c == '-'
  }

  predicate IsIdentifier(s: string) {
    && s != "" && (forall i :: 0 <= i < |s| ==> IsIdentifierChar(s[i]))
    && (AllDigits(s) && |s| > 1 ==> s[0] != '0')
  }

  predicate Valid(v: Version) { forall id :: id in v.pre ==> IsIdentifier(id) }

  function Join(ids: seq<string>): string {
    if |ids| == 0 then "" else if |ids| == 1 then ids[0] else ids[0] + "." + Join(ids[1..])
  }

  function Core(v: Version): string {
    Itoa(v.major) + "." + (Itoa(v.minor) + "." + Itoa(v.patch))
  }

  function Suffix(v: Version): string {
    if v.pre == [] then "" else "-" + Join(v.pre)
  }

  function Show(v: Version): string { Core(v) + Suffix(v) }

  predicate IdentifierLess(a: string, b: string) {
    if AllDigits(a) && AllDigits(b) then Value(a) < Value(b)
    else if AllDigits(a) != AllDigits(b) then AllDigits(a)
    else Less(a, b)
  }

  predicate PreLess(a: seq<string>, b: seq<string>) {
    b != [] && (a == [] || (if a[0] == b[0] then PreLess(a[1..], b[1..]) else IdentifierLess(a[0], b[0])))
  }

  predicate SameCore(a: Version, b: Version) {
    a.major == b.major && a.minor == b.minor && a.patch == b.patch
  }

  predicate CoreLess(a: Version, b: Version) {
    if a.major != b.major then a.major < b.major
    else if a.minor != b.minor then a.minor < b.minor
    else a.patch < b.patch
  }

  /** a has lower precedence than b. */
  predicate Precedes(a: Version, b: Version) {
    if !SameCore(a, b) then CoreLess(a, b)
    else a.pre != [] && (b.pre == [] || PreLess(a.pre, b.pre))
  }
}

/** What a suggested update means for well-formed versions. */
module UpdateCheck {
  import opened Seqs
  import opened Decimal
  import opened SemanticVersions
  import opened Trimming
  import opened VersionOrder

  /** The text names the version, perhaps with the usual v and white space around it. */
  predicate Names(text: string, v: Version) {
    TrimSpace(text) == Show(v) || TrimSpace(text) == "v" + Show(v)
  }

  function Clip(n: nat): nat { if n > MAX_INT64 then MAX_INT64 else n }

  function Clipped(v: Version): Version {
    Version(Clip(v.major), Clip(v.minor), Clip(v.patch), v.pre)
  }

  lemma {:induction false} ScanDigits(s: string)
    requires AllDigits(s)
    ensures Scan(s) == if Value(s) > MAX_UINT64 then Overflow else Number(Value(s))
  {
    if s != "" {
      ScanDigits(s[..|s| - 1]);
    }
  }

  lemma AtoiOfItoa(n: nat)
    ensures Atoi(Itoa(n)) == Clip(n)
  {
    ValueOfItoa(n);
    ScanDigits(Itoa(n));
    assert IsDigit(Itoa(n)[0]);
    hide Itoa, Value, Scan;
  }

  /** A numeral with a sign: as many digits as one likes, cut off at the 64-bit limits. */
  lemma AtoiOfNumeral(digits: string)
    requires digits != "" && AllDigits(digits)
    ensures Atoi(digits) == Clip(Value(digits)) && Atoi("+" + digits) == Clip(Value(digits))
    ensures Atoi("-" + digits) == if Value(digits) > MAX_INT64 then -MAX_INT64 - 1 else -(Value(digits) as int)
  {
    ScanDigits(digits);
    assert IsDigit(digits[0]);
    assert ("+" + digits)[1..] == digits && ("-" + digits)[1..] == digits;
    assert ("+" + digits)[0] == '+' && ("-" + digits)[0] == '-';
    hide Value, Scan;
  }

  lemma {:induction false} ScanStops(digits: string, c: char, rest: string)
    requires AllDigits(digits) && Value(digits) <= MAX_UINT64 && !IsDigit(c)
    ensures Scan(digits + [c] + rest) == NotANumeral
  {
    var s := digits + [c] + rest;
    if rest == "" {
      ScanDigits(digits);
      assert s == digits + [c] && s[..|s| - 1] == digits;
      hide Value;
    } else {
      var init := rest[..|rest| - 1];
      ScanStops(digits, c, init);
      assert s[..|s| - 1] == digits + [c] + init;
    }
  }

  /** Text that is no numeral reads as zero, whatever digits it starts with, unless these alone
      are already too large. */
  lemma AtoiOfText(digits: string, c: char, rest: string)
    requires AllDigits(digits) && Value(digits) <= MAX_UINT64 && !IsDigit(c)
    requires digits == "" ==> c != '+' && c != '-'
    ensures Atoi(digits + [c] + rest) == 0 && Atoi("") == 0
  {
    var s := digits + [c] + rest;
    ScanStops(digits, c, rest);
    assert s[0] == if digits == "" then c else digits[0];
    assert digits != "" ==> IsDigit(digits[0]);
    hide Value, Scan;
  }

  /** Versions with fewer than three components: the missing ones are zero. */
  lemma ShortVersionsParse(major: nat, minor: nat)
    ensures ParseTrimmed(Itoa(major)) == Semver(Clip(major), 0, 0, "")
    ensures ParseTrimmed(Itoa(major) + "." + Itoa(minor)) == Semver(Clip(major), Clip(minor), 0, "")
  {
    AtoiOfItoa(major);
    AtoiOfItoa(minor);
    DigitsAvoid(major, '.');
    DigitsAvoid(minor, '.');
    IndexOfAbsent(Itoa(major), '.');
    IndexOfAbsent(Itoa(minor), '.');
    CutRejoins(Itoa(major), '.', Itoa(minor));
    hide Itoa, Atoi, IndexOf, Clip;
    assert Itoa(major)[..|Itoa(major)|] == Itoa(major) && Itoa(minor)[..|Itoa(minor)|] == Itoa(minor);
    assert Itoa(major) + "." + Itoa(minor) == Itoa(major) + ['.'] + Itoa(minor);
  }

  lemma DigitsAvoid(n: nat, c: char)
    requires !IsDigit(c)
    ensures c !in Itoa(n)
  {
    hide Itoa;
  }

  lemma ParsePatchOfShow(v: Version)
    ensures ParsePatch(Itoa(v.patch) + Suffix(v)) == (Clip(v.patch), Join(v.pre))
  {
    hide Atoi, Itoa, Join;
    var n := Itoa(v.patch);
    AtoiOfItoa(v.patch);
    DigitsAvoid(v.patch, '-');
    if v.pre == [] {
      assert n + "" == n;
      assert Join(v.pre) == "" by { EmptyJoin(); }
      IndexOfAbsent(n, '-');
      hide IndexOf;
      assert n[..|n|] == n;
    } else {
      CutRejoins(n, '-', Join(v.pre));
      hide IndexOf;
      assert n + Suffix(v) == n + ['-'] + Join(v.pre);
    }
  }

  lemma EmptyJoin()
    ensures Join([]) == ""
  {
  }

  lemma {:induction false} JoinOfValid(ids: seq<string>)
    requires ids != [] && forall id :: id in ids ==> IsIdentifier(id)
    ensures Join(ids) != "" && IsIdentifierChar(Join(ids)[|Join(ids)| - 1])
  {
    assert ids[0] in ids;
    if |ids| > 1 {
      hide IsIdentifierChar;
      JoinOfValid(ids[1..]);
    }
  }

  /** A shown version starts with a digit and ends with a visible character. */
  lemma ShowEnds(v: Version)
    requires Valid(v)
    ensures Show(v) != "" && IsDigit(Show(v)[0]) && IsIdentifierChar(Show(v)[|Show(v)| - 1])
  {
    hide Itoa;
    assert IsDigit(Itoa(v.major)[0]);
    assert IsDigit(Itoa(v.patch)[|Itoa(v.patch)| - 1]);
    if v.pre != [] { JoinOfValid(v.pre); }
    hide Join;
    assert Show(v)[0] == Itoa(v.major)[0];
  }

  lemma VisibleIsNoSpace(c: char)
    requires IsIdentifierChar(c)
    ensures !IsSpace(c)
  {
  }

  lemma ShowIsTrimmed(v: Version)
    requires Valid(v)
    ensures TrimSpace(Show(v)) == Show(v) && TrimV(Show(v)) == Show(v)
  {
    ShowEnds(v);
    hide Show, IsSpace;
    VisibleIsNoSpace(Show(v)[0]);
    VisibleIsNoSpace(Show(v)[|Show(v)| - 1]);
  }

  lemma ParseMinorOfShow(v: Version)
    ensures ParseMinor(Itoa(v.minor) + ['.'] + (Itoa(v.patch) + Suffix(v))) == (Clip(v.minor), Clip(v.patch), Join(v.pre))
  {
    ParsePatchOfShow(v);
    AtoiOfItoa(v.minor);
    DigitsAvoid(v.minor, '.');
    hide Itoa, Atoi, IndexOf, ParsePatch, Join, Suffix, Clip;
    CutRejoins(Itoa(v.minor), '.', Itoa(v.patch) + Suffix(v));
  }

  lemma ShowSplits(v: Version)
    ensures Show(v) == Itoa(v.major) + ['.'] + (Itoa(v.minor) + ['.'] + (Itoa(v.patch) + Suffix(v)))
  {
    hide Itoa, Suffix;
  }

  lemma ShowParses(v: Version)
    ensures ParseTrimmed(Show(v)) == Semver(Clip(v.major), Clip(v.minor), Clip(v.patch), Join(v.pre))
  {
    hide Itoa, Atoi, IndexOf, ParseMinor, Join, Suffix, Clip, Show;
    ParseMinorOfShow(v);
    AtoiOfItoa(v.major);
    DigitsAvoid(v.major, '.');
    CutRejoins(Itoa(v.major), '.', Itoa(v.minor) + ['.'] + (Itoa(v.patch) + Suffix(v)));
    ShowSplits(v);
  }

  lemma NamedParses(text: string, v: Version)
    requires Valid(v) && Names(text, v)
    ensures Parse(text) == Semver(Clip(v.major), Clip(v.minor), Clip(v.patch), Join(v.pre))
    ensures Upgradable(text) <==> !MentionsBeta(Show(v))
  {
    ShowIsTrimmed(v);
    ShowEnds(v);
    ShowParses(v);
    hide TrimSpace, Show, Join, Clip, MentionsBeta, ParseTrimmed;
    assert ("v" + Show(v))[1..] == Show(v);
    assert TrimV(TrimSpace(text)) == Show(v);
  }

  lemma AboveIsPrecedence(l: Version, c: Version, lp: string, cp: string)
    requires (lp == "" <==> l.pre == []) && (cp == "" <==> c.pre == [])
    ensures Above(Semver(l.major, l.minor, l.patch, lp), Semver(c.major, c.minor, c.patch, cp)) <==>
      Precedes(c, l) && !(SameCore(c, l) && l.pre != [])
  {
    hide PreLess;
  }

  lemma JoinIsEmpty(v: Version)
    requires Valid(v)
    ensures Join(v.pre) == "" <==> v.pre == []
  {
    if v.pre != [] { JoinOfValid(v.pre); }
  }

  /** For well-formed versions of any size: an update is suggested exactly when the clipped
      current version precedes the clipped latest one, the current one is no beta, and the two
      are not both pre-releases of one core. */
  lemma SuggestionInGeneral(l: Version, c: Version, latest: string, current: string)
    requires Valid(l) && Valid(c) && Names(latest, l) && Names(current, c)
    ensures IsNewer(latest, current) <==>
      && Precedes(Clipped(c), Clipped(l)) && !MentionsBeta(Show(c))
      && !(SameCore(Clipped(c), Clipped(l)) && l.pre != [])
  {
    NamedParses(latest, l);
    NamedParses(current, c);
    JoinIsEmpty(l);
    JoinIsEmpty(c);
    AboveIsPrecedence(Clipped(l), Clipped(c), Join(l.pre), Join(c.pre));
    hide Parse, Upgradable, MentionsBeta, Names, Show, Join, Clip, Precedes, Above, SameCore;
  }

  predicate InRange(v: Version) {
    v.major <= MAX_INT64 && v.minor <= MAX_INT64 && v.patch <= MAX_INT64
  }

  /** With components that fit, a suggestion means higher precedence; the code stays silent
      about an update in exactly two cases. */
  lemma SuggestionMeansPrecedence(l: Version, c: Version, latest: string, current: string)
    requires Valid(l) && Valid(c) && Names(latest, l) && Names(current, c) && InRange(l) && InRange(c)
    ensures IsNewer(latest, current) <==>
      Precedes(c, l) && !MentionsBeta(Show(c)) && !(SameCore(c, l) && l.pre != [])
  {
    SuggestionInGeneral(l, c, latest, current);
    hide IsNewer, Precedes, MentionsBeta, Show, Names, SameCore;
  }

  /** Components beyond 63 bits are clipped, so there a suggestion can be a downgrade. */
  lemma ClippingMisleads(l: Version, c: Version)
    requires l == Version(MAX_INT64, 1, 0, []) && c == Version(MAX_INT64 + 1, 0, 0, [])
    ensures IsNewer(Show(l), Show(c)) && Precedes(l, c)
  {
    ShowIsTrimmed(l);
    ShowIsTrimmed(c);
    NoBetaInDigits(c);
    SuggestionInGeneral(l, c, Show(l), Show(c));
    hide IsNewer, MentionsBeta, Show;
  }

  lemma NoBetaInDigits(v: Version)
    requires v.pre == []
    ensures !MentionsBeta(Show(v))
  {
    var s := Show(v);
    forall i | 0 <= i < |s| ensures Lower(s[i]) != 'b' {
      assert IsDigit(s[i]) || s[i] == '.' by { hide Itoa; }
    }
    hide Show, Lower;
  }
}
