/** The lexicographic order of strings and sorting by it. */
module StringOrder {
  import opened Seqs

  predicate Less(a: string, b: string) {
    b != "" && (a == "" || a[0] < b[0] || (a[0] == b[0] && Less(a[1..], b[1..])))
  }

  predicate Leq(a: string, b: string) { a == b || Less(a, b) }

  lemma {:induction false} LessIrreflexive(a: string)
    ensures !Less(a, a)
  {
    if a != "" { LessIrreflexive(a[1..]); }
  }

  lemma {:induction false} LessTransitive(a: string, b: string, c: string)
    requires Less(a, b) && Less(b, c)
    ensures Less(a, c)
  {
    if a != "" && a[0] == b[0] && b[0] == c[0] { LessTransitive(a[1..], b[1..], c[1..]); }
  }

  lemma {:induction false} LessTotal(a: string, b: string)
    ensures Less(a, b) || a == b || Less(b, a)
  {
    if a != "" && b != "" && a[0] == b[0] {
      LessTotal(a[1..], b[1..]);
      if a[1..] == b[1..] {
        assert a == [a[0]] + a[1..] && b == [b[0]] + b[1..];
      }
    }
  }

  ghost predicate Sorted(s: seq<string>) {
    forall i, j :: 0 <= i < j < |s| ==> Leq(s[i], s[j])
  }

  /** Sorts in place of the library call; the specification fixes the result. */
  method SortStrings(s: seq<string>) returns (sorted: seq<string>)
    ensures Sorted(sorted) && multiset(sorted) == multiset(s)
  {
    sorted := [];
    for i := 0 to |s|
      invariant Sorted(sorted) && multiset(sorted) == multiset(s[..i])
    {
      assert s[..i + 1] == s[..i] + [s[i]];
      sorted := InsertString(sorted, s[i]);
    }
    assert s[..|s|] == s;
  }

  method InsertString(s: seq<string>, x: string) returns (longer: seq<string>)
    requires Sorted(s)
    ensures Sorted(longer) && multiset(longer) == multiset(s) + multiset{x}
  {
    hide Less;
    var k := |s|;
    while k > 0 && Less(x, s[k - 1])
      invariant 0 <= k <= |s| && forall j :: k <= j < |s| ==> Less(x, s[j])
    {
      k := k - 1;
    }
    forall i | 0 <= i < k ensures Leq(s[i], x) {
      LessTotal(s[k - 1], x);
      assert Leq(s[k - 1], x);
      if i < k - 1 && Less(s[i], s[k - 1]) && Less(s[k - 1], x) {
        LessTransitive(s[i], s[k - 1], x);
      }
    }
    longer := s[..k] + [x] + s[k..];
    InsertedSorted(s, k, x);
  }

  lemma InsertedSorted(s: seq<string>, k: nat, x: string)
    requires k <= |s| && Sorted(s)
    requires forall i :: 0 <= i < k ==> Leq(s[i], x)
    requires forall i :: k <= i < |s| ==> Leq(x, s[i])
    ensures Sorted(s[..k] + [x] + s[k..])
    ensures multiset(s[..k] + [x] + s[k..]) == multiset(s) + multiset{x}
  {
    hide Less, Leq;
    assert s == s[..k] + s[k..];
  }

  lemma HeadIsLeast(s: seq<string>, x: string)
    requires Sorted(s) && x in multiset(s)
    ensures Leq(s[0], x)
  {
    hide Less;
    var i :| 0 <= i < |s| && s[i] == x;
  }

  lemma RemoveHead(s: seq<string>)
    requires s != []
    ensures multiset(s[1..]) == multiset(s) - multiset{s[0]}
    ensures s[0] in multiset(s)
  {
    assert s == [s[0]] + s[1..];
  }

  /** A sorted arrangement is determined by its elements. */
  lemma {:induction false} SortedUnique(a: seq<string>, b: seq<string>)
    requires Sorted(a) && Sorted(b) && multiset(a) == multiset(b)
    ensures a == b
  {
    assert |multiset(a)| == |a| && |multiset(b)| == |b|;
    if a != [] {
      hide Less, Leq, Sorted;
      RemoveHead(a);
      RemoveHead(b);
      SameHead(a, b);
      TailSorted(a);
      TailSorted(b);
      SortedUnique(a[1..], b[1..]);
      assert a == [a[0]] + a[1..] && b == [b[0]] + b[1..];
    }
  }

  lemma TailSorted(s: seq<string>)
    requires Sorted(s) && s != []
    ensures Sorted(s[1..])
  {
    hide Less, Leq;
  }

  lemma SameHead(a: seq<string>, b: seq<string>)
    requires Sorted(a) && Sorted(b) && a != [] && b != [] && a[0] in multiset(b) && b[0] in multiset(a)
    ensures a[0] == b[0]
  {
    HeadIsLeast(a, b[0]);
    HeadIsLeast(b, a[0]);
    if a[0] != b[0] {
      LessTransitive(a[0], b[0], a[0]);
      LessIrreflexive(a[0]);
    }
    hide Less, Sorted;
  }
}
