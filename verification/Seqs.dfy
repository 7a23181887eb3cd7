/** Sequence and string vocabulary shared by the models. */
module Seqs {

  datatype Option<+T> = None | Some(value: T)

  /** The elements of s that satisfy p, in order. */
  function Filter<T>(s: seq<T>, p: T -> bool): seq<T> {
    if s == [] then []
    else Filter(s[..|s| - 1], p) + (if p(s[|s| - 1]) then [s[|s| - 1]] else [])
  }

  lemma {:induction false} FilterMembers<T(!new)>(s: seq<T>, p: T -> bool)
    ensures forall x :: x in Filter(s, p) <==> x in s && p(x)
  {
    if s != [] {
      FilterMembers(s[..|s| - 1], p);
      assert s == s[..|s| - 1] + [s[|s| - 1]];
    }
  }

  lemma {:induction false} FilterConcat<T>(a: seq<T>, b: seq<T>, p: T -> bool)
    ensures Filter(a + b, p) == Filter(a, p) + Filter(b, p)
  {
    if b == [] {
      assert a + b == a;
    } else {
      FilterConcat(a, b[..|b| - 1], p);
      assert (a + b)[..|a + b| - 1] == a + b[..|b| - 1];
    }
  }

  lemma FilterOne<T>(x: T, p: T -> bool)
    ensures Filter([x], p) == (if p(x) then [x] else []) && Filter([], p) == []
  {
    assert [x][..0] == [];
  }

  ghost predicate Increasing(positions: seq<nat>) {
    forall j, k :: 0 <= j < k < |positions| ==> positions[j] < positions[k]
  }

  /** The positions below n where p holds, in order. */
  ghost predicate Positions(positions: seq<nat>, n: nat, p: nat -> bool) {
    Increasing(positions) && forall k: nat :: k in positions <==> k < n && p(k)
  }

  lemma OneMorePosition(positions: seq<nat>, n: nat, p: nat -> bool)
    requires Positions(positions, n, p)
    ensures Positions(if p(n) then positions + [n] else positions, n + 1, p)
  {
    var more := positions + [n];
    forall j | 0 <= j < |positions| ensures positions[j] < n { assert positions[j] in positions; }
    assert forall k: nat :: k in more <==> k in positions || k == n;
  }

  lemma NoPositions(p: nat -> bool)
    ensures Positions([], 0, p)
  {
  }

  /** The part takes the elements at these positions, in order, and no position with such an
      element is left out. */
  ghost predicate Takes<T(!new)>(part: seq<T>, whole: seq<T>, positions: seq<nat>) {
    && |positions| == |part| && Increasing(positions)
    && (forall k :: 0 <= k < |part| ==> positions[k] < |whole| && part[k] == whole[positions[k]])
    && (forall i :: 0 <= i < |whole| && whole[i] in part ==> i in positions)
  }

  /** All occurrences of some of the elements, in their order. */
  ghost predicate Selection<T(!new)>(part: seq<T>, whole: seq<T>) {
    exists positions :: Takes(part, whole, positions)
  }

  lemma {:induction false} FilterIsSelection<T(!new)>(s: seq<T>, p: T -> bool)
    ensures Selection(Filter(s, p), s)
  {
    var positions := FilterPositions(s, p);
    assert Takes(Filter(s, p), s, positions);
  }

  lemma {:induction false} FilterPositions<T(!new)>(s: seq<T>, p: T -> bool) returns (positions: seq<nat>)
    ensures Takes(Filter(s, p), s, positions)
  {
    positions := [];
    if s != [] {
      var i := |s| - 1;
      var init := FilterPositions(s[..i], p);
      FilterMembers(s[..i], p);
      assert s == s[..i] + [s[i]];
      TakeOneMore(Filter(s[..i], p), s[..i], init, s[i], p);
      positions := if p(s[i]) then init + [i] else init;
    }
  }

  lemma TakeOneMore<T(!new)>(part: seq<T>, whole: seq<T>, positions: seq<nat>, x: T, p: T -> bool)
    requires Takes(part, whole, positions) && forall y :: y in part <==> y in whole && p(y)
    ensures p(x) ==> Takes(part + [x], whole + [x], positions + [|whole|])
    ensures !p(x) ==> Takes(part, whole + [x], positions)
  {
    var more := positions + [|whole|];
    assert more[|positions|] == |whole|;
    forall i | 0 <= i < |whole| && whole[i] in part ensures i in positions && i in more {
      assert whole[i] in part;
    }
    forall i | 0 <= i < |whole| && (whole + [x])[i] in part + [x] && p(x) ensures i in more {
      assert whole[i] in whole && p(whole[i]);
    }
  }

  /** One more element of a prefix. */
  lemma FilterStep<T>(s: seq<T>, i: nat, p: T -> bool)
    requires i < |s|
    ensures Filter(s[..i + 1], p) == Filter(s[..i], p) + (if p(s[i]) then [s[i]] else [])
  {
    assert s[..i + 1][..i] == s[..i];
  }

  ghost predicate NoDup<T>(s: seq<T>) {
    forall i, j :: 0 <= i < j < |s| ==> s[i] != s[j]
  }

  function Elems<T>(s: seq<T>): set<T> {
    set x | x in s
  }

  lemma AppendFresh<T>(s: seq<T>, x: T)
    ensures Elems(s + [x]) == Elems(s) + {x}
    ensures NoDup(s) && x !in Elems(s) ==> NoDup(s + [x])
    ensures x in Elems(s) <==> x in s
  {
  }

  lemma ElemsStep<T>(s: seq<T>, i: nat)
    requires i < |s|
    ensures Elems(s[..i + 1]) == Elems(s[..i]) + {s[i]}
    ensures s[i] in Elems(s)
  {
  }

  lemma EmptyElems<T>()
    ensures Elems<T>([]) == {} && NoDup<T>([])
  {
  }

  lemma {:induction false} NoDupSize<T>(s: seq<T>)
    requires NoDup(s)
    ensures |Elems(s)| == |s|
  {
    if s != [] {
      var i := |s| - 1;
      NoDupSize(s[..i]);
      assert Elems(s) == Elems(s[..i]) + {s[i]};
    }
  }

  lemma SubsetSize<T>(a: set<T>, b: set<T>)
    requires a <= b
    ensures |a| <= |b|
  {
    assert b == a + (b - a);
  }

  predicate HasPrefix(s: string, prefix: string) {
    prefix <= s
  }

  predicate HasSuffix(s: string, suffix: string) {
    |suffix| <= |s| && s[|s| - |suffix|..] == suffix
  }

  predicate TextAt(s: string, i: int, t: string) {
    0 <= i <= |s| - |t| && forall k :: 0 <= k < |t| ==> s[i + k] == t[k]
  }

  predicate ContainsText(s: string, t: string) {
    exists i :: 0 <= i <= |s| && TextAt(s, i, t)
  }

  /** The index of the first c, or the length. */
  function IndexOf(s: string, c: char): (i: nat)
    ensures i <= |s| && c !in s[..i] && (i < |s| ==> s[i] == c)
  {
    if s == "" || s[0] == c then 0
    else
      var i := 1 + IndexOf(s[1..], c);
      assert s[..i] == [s[0]] + s[1..][..i - 1];
      i
  }

  lemma CutRejoins(from: string, c: char, to: string)
    requires c !in from
    ensures var v := from + [c] + to; IndexOf(v, c) == |from| && v[..|from|] == from && v[|from| + 1..] == to
  {
    var v := from + [c] + to;
    assert v[|from|] == c;
    var i := IndexOf(v, c);
    assert v[..|from|] == from && v[|from| + 1..] == to;
  }

  lemma IndexOfAbsent(s: string, c: char)
    requires c !in s
    ensures IndexOf(s, c) == |s|
  {
  }

  function Reverse<T>(s: seq<T>): (r: seq<T>)
    ensures |r| == |s|
    ensures forall i :: 0 <= i < |s| ==> r[i] == s[|s| - 1 - i]
  {
    if s == [] then [] else [s[|s| - 1]] + Reverse(s[..|s| - 1])
  }
}
