/** The recursive sub-session walk of the trace command, and its agreement with the
    repair worklist. */
module ChildSessions {
  import opened Seqs
  import opened SessionTree

  datatype Line =
    | Header(id: string, depth: nat)
    | NoTranscript(depth: nat)
    | ReadError(depth: nat)
    | EmptyTranscript(depth: nat)
    | TraceOf(id: string, depth: nat)

  /** Sessions the walk descends into: the transcript exists, can be read and has events. */
  predicate Renderable(ix: Index, id: string) {
    id in ix.sessions && ix.sessions[id].transcript.Events? && ix.sessions[id].transcript.count > 0
  }

  /** A call path: linked downwards, every session entered after the first renderable. */
  ghost predicate CallPath(ix: Index, p: seq<string>) {
    Path(ix, p) && forall i :: 1 <= i < |p| ==> Renderable(ix, p[i])
  }

  /** No renderable session below the root leads back to it. */
  ghost predicate NotOnCycle(ix: Index, root: string) {
    forall p :: CallPath(ix, p) && |p| >= 2 && p[0] == root ==> p[|p| - 1] != root
  }

  /** A visit below a call path: linked further down through renderable sessions; only the
      last one may fail to render. */
  ghost predicate IsVisit(ix: Index, path: seq<string>, q: seq<string>) {
    && |q| > |path| && path <= q && Path(ix, q)
    && forall i :: |path| <= i < |q| - 1 ==> Renderable(ix, q[i])
  }

  lemma ParentIsUnique(ix: Index, p: string, q: string, c: string)
    requires c in Kids(ix, p) && c in Kids(ix, q)
    ensures p == q
  {
  }

  /** Call paths from a root that is not on a cycle never repeat a session. */
  lemma {:induction false} CallPathHasNoRepeats(ix: Index, p: seq<string>)
    requires CallPath(ix, p) && NotOnCycle(ix, p[0])
    ensures NoDup(p) && Elems(p[1..]) <= ix.sessions.Keys && |p| <= |ix.sessions| + 1
  {
    if |p| > 1 {
      var init := p[..|p| - 1];
      assert CallPath(ix, init);
      CallPathHasNoRepeats(ix, init);
      var c := p[|p| - 1];
      if c in init {
        var k :| 0 <= k < |init| && init[k] == c;
        if k > 0 {
          ParentIsUnique(ix, init[k - 1], init[|init| - 1], c);
        }
        assert false;
      }
      AppendFresh(init, c);
      assert p == init + [c];
    }
    forall i | 1 <= i < |p| ensures p[i] in ix.sessions {
      assert p[i] in Kids(ix, p[i - 1]);
    }
    NoDupSize(p[1..]);
    SubsetSize(Elems(p[1..]), ix.sessions.Keys);
  }

  /** Going up from a session is deterministic, so two visits below the same path that end
      in the same session are the same visit. */
  lemma {:induction false} VisitsAgreeFromTheEnd(ix: Index, p: seq<string>, q: seq<string>, k: nat)
    requires Path(ix, p) && Path(ix, q) && p[|p| - 1] == q[|q| - 1]
    requires k < |p| && k < |q|
    ensures p[|p| - 1 - k] == q[|q| - 1 - k]
  {
    if k > 0 {
      VisitsAgreeFromTheEnd(ix, p, q, k - 1);
      ParentIsUnique(ix, p[|p| - 1 - k], q[|q| - 1 - k], p[|p| - k]);
    }
  }

  lemma VisitNeverReturns(ix: Index, root: string, q: seq<string>, at: nat)
    requires NotOnCycle(ix, root) && IsVisit(ix, [root], q) && 0 < at < |q| - 1
    ensures q[at] != root
  {
    var prefix := q[..at + 1];
    assert CallPath(ix, prefix) && prefix[0] == root;
  }

  lemma VisitNotShorter(ix: Index, root: string, p: seq<string>, q: seq<string>)
    requires NotOnCycle(ix, root)
    requires IsVisit(ix, [root], p) && IsVisit(ix, [root], q) && p[|p| - 1] == q[|q| - 1]
    ensures |p| >= |q|
  {
    if |p| < |q| {
      VisitsAgreeFromTheEnd(ix, p, q, |p| - 1);
      VisitNeverReturns(ix, root, q, |q| - |p|);
    }
  }

  lemma VisitsAreUnique(ix: Index, root: string, p: seq<string>, q: seq<string>)
    requires NotOnCycle(ix, root)
    requires IsVisit(ix, [root], p) && IsVisit(ix, [root], q) && p[|p| - 1] == q[|q| - 1]
    ensures p == q
  {
    VisitNotShorter(ix, root, p, q);
    VisitNotShorter(ix, root, q, p);
    forall i | 0 <= i < |p| ensures p[i] == q[i] {
      VisitsAgreeFromTheEnd(ix, p, q, |p| - 1 - i);
    }
  }

  // ---------------------------------------------------------------- sorting siblings

  ghost predicate InCreationOrder(ix: Index, kids: seq<string>) {
    forall i, j :: 0 <= i < j < |kids| && kids[i] in ix.sessions && kids[j] in ix.sessions ==>
      ix.sessions[kids[i]].createdAt <= ix.sessions[kids[j]].createdAt
  }

  /** Sorts by creation time; ties end in any order. */
  method SortByCreation(ix: Index, kids: seq<string>) returns (sorted: seq<string>)
    requires Elems(kids) <= ix.sessions.Keys && NoDup(kids)
    ensures Elems(sorted) == Elems(kids) && NoDup(sorted) && InCreationOrder(ix, sorted)
  {
    EmptyElems<string>();
    sorted := [];
    for i := 0 to |kids|
      invariant Elems(sorted) == Elems(kids[..i]) && NoDup(sorted) && InCreationOrder(ix, sorted)
    {
      ElemsStep(kids, i);
      assert kids[i] !in kids[..i];
      assert kids[i] !in Elems(sorted);
      hide NoDup, Elems, InCreationOrder;
      sorted := Insert(ix, sorted, kids[i]);
    }
    assert kids[..|kids|] == kids;
  }

  method Insert(ix: Index, sorted: seq<string>, c: string) returns (longer: seq<string>)
    requires Elems(sorted) <= ix.sessions.Keys && c in ix.sessions && c !in Elems(sorted)
    requires NoDup(sorted) && InCreationOrder(ix, sorted)
    ensures Elems(longer) == Elems(sorted) + {c} && NoDup(longer) && InCreationOrder(ix, longer)
  {
    var k := |sorted|;
    while k > 0 && sorted[k - 1] in ix.sessions && ix.sessions[sorted[k - 1]].createdAt > ix.sessions[c].createdAt
      invariant 0 <= k <= |sorted|
      invariant forall j :: k <= j < |sorted| && sorted[j] in ix.sessions ==>
                  ix.sessions[sorted[j]].createdAt > ix.sessions[c].createdAt
    {
      k := k - 1;
    }
    longer := sorted[..k] + [c] + sorted[k..];
    if k > 0 { assert sorted[k - 1] in Elems(sorted); }
    hide Elems, NoDup;
    InsertedElems(sorted, k, c);
    InsertedInOrder(ix, sorted, k, c);
  }

  lemma InsertedInOrder(ix: Index, s: seq<string>, k: nat, c: string)
    requires k <= |s| && c in ix.sessions && InCreationOrder(ix, s)
    requires k > 0 ==> s[k - 1] in ix.sessions && ix.sessions[s[k - 1]].createdAt <= ix.sessions[c].createdAt
    requires forall j :: k <= j < |s| && s[j] in ix.sessions ==> ix.sessions[s[j]].createdAt > ix.sessions[c].createdAt
    ensures InCreationOrder(ix, s[..k] + [c] + s[k..])
  {
    var longer := s[..k] + [c] + s[k..];
    forall i | 0 <= i < |longer|
      ensures longer[i] == if i < k then s[i] else if i == k then c else s[i - 1]
    {
    }
    forall i | 0 <= i < k && s[i] in ix.sessions ensures ix.sessions[s[i]].createdAt <= ix.sessions[c].createdAt {
      assert i < k - 1 ==> ix.sessions[s[i]].createdAt <= ix.sessions[s[k - 1]].createdAt;
    }
  }

  lemma InsertedElems(s: seq<string>, k: nat, c: string)
    requires k <= |s| && NoDup(s) && c !in Elems(s)
    ensures var longer := s[..k] + [c] + s[k..]; Elems(longer) == Elems(s) + {c} && NoDup(longer)
  {
    var longer := s[..k] + [c] + s[k..];
    assert s == s[..k] + s[k..];
    forall x ensures x in longer <==> x in s || x == c {
    }
    forall i | 0 <= i < |s| ensures s[i] != c { assert s[i] in Elems(s); }
  }

  // ---------------------------------------------------------------- the walk

  function Visited(lines: seq<Line>): seq<string> {
    if lines == [] then []
    else Visited(lines[..|lines| - 1]) + (if lines[|lines| - 1].Header? then [lines[|lines| - 1].id] else [])
  }

  lemma {:induction false} VisitedConcat(a: seq<Line>, b: seq<Line>)
    ensures Visited(a + b) == Visited(a) + Visited(b)
  {
    if b == [] {
      assert a + b == a;
    } else {
      VisitedConcat(a, b[..|b| - 1]);
      assert (a + b)[..|a + b| - 1] == a + b[..|b| - 1];
    }
  }

  function LastOf(q: seq<string>): string
    requires q != []
  {
    q[|q| - 1]
  }

  /** One path per header line, in order, ending in the header's session. */
  ghost predicate Witnesses(visited: seq<string>, paths: seq<seq<string>>) {
    |paths| == |visited| && forall i :: 0 <= i < |paths| ==> paths[i] != [] && LastOf(paths[i]) == visited[i]
  }

  /** The walk's result below a call path: the visited paths are exactly the visits, each
      once, and siblings come in creation order. */
  ghost predicate VisitsExactly(ix: Index, path: seq<string>, firsts: seq<string>, paths: seq<seq<string>>) {
    && NoDup(paths)
    && (forall q :: q in paths <==> IsVisit(ix, path, q) && q[|path|] in firsts)
  }

  /** Two visits that differ at most in their last session. */
  ghost predicate Siblings(ix: Index, p: seq<string>, q: seq<string>) {
    p != [] && q != [] && p[..|p| - 1] == q[..|q| - 1] && LastOf(p) in ix.sessions && LastOf(q) in ix.sessions
  }

  ghost predicate SiblingsInOrder(ix: Index, paths: seq<seq<string>>) {
    forall i, j :: 0 <= i < j < |paths| && Siblings(ix, paths[i], paths[j]) ==>
      ix.sessions[LastOf(paths[i])].createdAt <= ix.sessions[LastOf(paths[j])].createdAt
  }

  /** Visits below path through c: the header for c, then the visits below it if it renders. */
  lemma VisitsThrough(ix: Index, path: seq<string>, c: string, q: seq<string>)
    requires CallPath(ix, path) && c in Kids(ix, LastOf(path))
    ensures IsVisit(ix, path, q) && q[|path|] == c <==>
            q == path + [c] || (Renderable(ix, c) && IsVisit(ix, path + [c], q))
  {
    var longer := path + [c];
    if q == longer {
      assert IsVisit(ix, path, q);
    } else if IsVisit(ix, path, q) && q[|path|] == c {
      assert longer <= q;
    }
  }

  lemma AddChild(ix: Index, path: seq<string>, firsts: seq<string>, c: string,
                 paths: seq<seq<string>>, below: seq<seq<string>>)
    requires CallPath(ix, path) && c in Kids(ix, LastOf(path)) && c !in firsts
    requires VisitsExactly(ix, path, firsts, paths)
    requires NoDup(below)
    requires forall q :: q in below <==> Renderable(ix, c) && IsVisit(ix, path + [c], q)
    ensures VisitsExactly(ix, path, firsts + [c], paths + [path + [c]] + below)
  {
    var all := paths + [path + [c]] + below;
    forall q ensures q in all <==> IsVisit(ix, path, q) && q[|path|] in firsts + [c] {
      VisitsThrough(ix, path, c, q);
    }
    hide Path, Renderable, Kids;
    forall i, j | 0 <= i < j < |all| ensures all[i] != all[j] {
      if i < |paths| {
        assert all[i] in paths && all[i][|path|] in firsts;
        if j >= |paths| {
          assert j > |paths| ==> all[j] in below;
          VisitsThrough(ix, path, c, all[j]);
        }
      } else if i == |paths| {
        assert all[j] in below && |all[j]| > |path| + 1;
      } else {
        assert all[i] == below[i - |paths| - 1] && all[j] == below[j - |paths| - 1];
      }
    }
  }

  /** Siblings stay in order when a later sibling and everything below it is appended. */
  lemma AppendSiblings(ix: Index, path: seq<string>, firsts: seq<string>, c: string,
                       paths: seq<seq<string>>, below: seq<seq<string>>)
    requires SiblingsInOrder(ix, paths) && SiblingsInOrder(ix, below)
    requires InCreationOrder(ix, firsts + [c]) && c !in firsts
    requires forall q :: q in paths ==> |q| > |path| && path <= q && q[|path|] in firsts
    requires forall q :: q in below ==> |q| > |path| + 1 && path + [c] <= q
    ensures SiblingsInOrder(ix, paths + [path + [c]] + below)
  {
    var all := paths + [path + [c]] + below;
    var head := path + [c];
    forall i, j | 0 <= i < j < |all| && Siblings(ix, all[i], all[j])
      ensures ix.sessions[LastOf(all[i])].createdAt <= ix.sessions[LastOf(all[j])].createdAt
    {
      assert |all[i]| == |all[j]| by {
        assert |all[i][..|all[i]| - 1]| == |all[j][..|all[j]| - 1]|;
      }
      if i < |paths| && j >= |paths| {
        assert all[i] in paths;
        if j == |paths| {
          var k :| 0 <= k < |firsts| && firsts[k] == all[i][|path|];
          assert (firsts + [c])[k] == LastOf(all[i]) && (firsts + [c])[|firsts|] == c;
        }
      } else if i > |paths| {
        assert all[i] == below[i - |paths| - 1] && all[j] == below[j - |paths| - 1];
      }
    }
  }

  predicate Under(r: seq<string>, q: seq<string>) { r <= q }

  /** A session comes before everything below it, and nothing else comes in between. */
  ghost predicate DepthFirst(paths: seq<seq<string>>) {
    && (forall i, j :: 0 <= i < j < |paths| ==> !Under(paths[j], paths[i]))
    && (forall i, j, k, r :: 0 <= i < j < k < |paths| && Under(r, paths[i]) && Under(r, paths[k]) ==> Under(r, paths[j]))
  }

  /** A later child and everything below it, appended, keep the order depth-first. */
  lemma AppendDepthFirst(path: seq<string>, firsts: seq<string>, c: string,
                         paths: seq<seq<string>>, below: seq<seq<string>>)
    requires DepthFirst(paths) && DepthFirst(below) && c !in firsts
    requires forall q :: q in paths ==> |q| > |path| && path <= q && q[|path|] in firsts
    requires forall q :: q in below ==> |q| > |path| + 1 && path + [c] <= q
    ensures DepthFirst(paths + [path + [c]] + below)
  {
    var all := paths + [path + [c]] + below;
    forall i | 0 <= i < |all| ensures Placed(path, c, paths, below, all, i) {
      if i < |paths| { assert paths[i] in paths; }
      if i > |paths| { assert below[i - |paths| - 1] in below; }
    }
    forall i, j | 0 <= i < j < |all| ensures !Under(all[j], all[i]) {
      assert Placed(path, c, paths, below, all, i) && Placed(path, c, paths, below, all, j);
    }
    hide DepthFirst;
    forall i, j, k, r | 0 <= i < j < k < |all| && Under(r, all[i]) && Under(r, all[k]) ensures Under(r, all[j]) {
      assert Placed(path, c, paths, below, all, i) && Placed(path, c, paths, below, all, j);
      assert Placed(path, c, paths, below, all, k);
      StaysUnder(path, c, paths, below, all, i, j, k, r);
    }
    assert DepthFirst(all) by { IsDepthFirst(all); }
  }

  /** Where the i-th path comes from and what it starts with. */
  ghost predicate Placed(path: seq<string>, c: string, paths: seq<seq<string>>, below: seq<seq<string>>,
                         all: seq<seq<string>>, i: nat)
  {
    && |all| == |paths| + 1 + |below| && i < |all| && |all[i]| > |path| && path <= all[i]
    && (i < |paths| ==> all[i] == paths[i] && all[i][|path|] != c)
    && (i >= |paths| ==> all[i][|path|] == c && path + [c] <= all[i])
    && (i == |paths| ==> |all[i]| == |path| + 1)
    && (i > |paths| ==> all[i] == below[i - |paths| - 1] && |all[i]| > |path| + 1)
  }

  lemma StaysUnder(path: seq<string>, c: string, paths: seq<seq<string>>, below: seq<seq<string>>,
                   all: seq<seq<string>>, i: nat, j: nat, k: nat, r: seq<string>)
    requires DepthFirst(paths) && DepthFirst(below) && i < j < k
    requires Placed(path, c, paths, below, all, i) && Placed(path, c, paths, below, all, j)
    requires Placed(path, c, paths, below, all, k)
    requires Under(r, all[i]) && Under(r, all[k])
    ensures Under(r, all[j])
  {
    if k < |paths| || i > |paths| {
    } else if i < |paths| {
      assert |r| <= |path|;
      PrefixOfCommon(r, path, all[i], all[j]);
    } else {
      PrefixOfCommon(r, path + [c], all[i], all[j]);
    }
  }

  lemma IsDepthFirst(paths: seq<seq<string>>)
    requires forall i, j :: 0 <= i < j < |paths| ==> !Under(paths[j], paths[i])
    requires forall i, j, k, r :: 0 <= i < j < k < |paths| && Under(r, paths[i]) && Under(r, paths[k]) ==> Under(r, paths[j])
    ensures DepthFirst(paths)
  {
  }

  lemma PrefixOfCommon(r: seq<string>, common: seq<string>, p: seq<string>, q: seq<string>)
    requires Under(r, p) && |r| <= |common| && common <= p && common <= q
    ensures Under(r, q)
  {
    assert r == p[..|r|] == common[..|r|] == q[..|r|];
  }

  /** All visits below a call path, each once, depth-first with siblings in creation order. */
  ghost predicate Walked(ix: Index, path: seq<string>, paths: seq<seq<string>>) {
    NoDup(paths) && (forall q :: q in paths <==> IsVisit(ix, path, q)) && SiblingsInOrder(ix, paths) && DepthFirst(paths)
  }

  /** The walk after the first children. */
  ghost predicate WalkedUpTo(ix: Index, path: seq<string>, firsts: seq<string>, paths: seq<seq<string>>) {
    VisitsExactly(ix, path, firsts, paths) && SiblingsInOrder(ix, paths) && DepthFirst(paths)
  }

  lemma OneMoreChild(ix: Index, path: seq<string>, firsts: seq<string>, c: string,
                     paths: seq<seq<string>>, below: seq<seq<string>>)
    requires CallPath(ix, path) && c in Kids(ix, LastOf(path)) && c !in firsts && InCreationOrder(ix, firsts + [c])
    requires WalkedUpTo(ix, path, firsts, paths)
    requires NoDup(below) && SiblingsInOrder(ix, below) && DepthFirst(below)
    requires forall q :: q in below <==> Renderable(ix, c) && IsVisit(ix, path + [c], q)
    ensures WalkedUpTo(ix, path, firsts + [c], paths + ([path + [c]] + below))
  {
    AddChild(ix, path, firsts, c, paths, below);
    hide DepthFirst, SiblingsInOrder, InCreationOrder, Kids, Renderable, Path;
    AppendSiblings(ix, path, firsts, c, paths, below);
    AppendDepthFirst(path, firsts, c, paths, below);
    assert paths + ([path + [c]] + below) == paths + [path + [c]] + below;
  }

  lemma AllChildrenWalked(ix: Index, path: seq<string>, kids: seq<string>, paths: seq<seq<string>>)
    requires CallPath(ix, path) && Elems(kids) == Kids(ix, LastOf(path))
    requires WalkedUpTo(ix, path, kids, paths)
    ensures Walked(ix, path, paths)
  {
    forall q | IsVisit(ix, path, q) ensures q[|path|] in kids {
      assert q[|path|] in Kids(ix, q[|path| - 1]);
      assert q[|path|] in Elems(kids);
    }
  }

  lemma NothingVisited(ix: Index, path: seq<string>)
    ensures WalkedUpTo(ix, path, [], []) && LinesOf(ix, []) == []
  {
  }

  lemma NothingBelow(ix: Index)
    ensures SiblingsInOrder(ix, []) && DepthFirst([])
  {
  }

  /** What the walk prints for one child. */
  function ChildLines(ix: Index, child: string, depth: nat): seq<Line> {
    if child !in ix.sessions then [] else
    [Header(child, depth),
     match ix.sessions[child].transcript
     case Missing => NoTranscript(depth)
     case Unreadable => ReadError(depth)
     case Events(count) => if count > 0 then TraceOf(child, depth) else EmptyTranscript(depth)]
  }

  /** The lines of the visited paths, in order, indented by depth. */
  function LinesOf(ix: Index, paths: seq<seq<string>>): seq<Line> {
    if paths == [] then [] else
    var last := paths[|paths| - 1];
    LinesOf(ix, paths[..|paths| - 1]) + if |last| < 2 then [] else ChildLines(ix, LastOf(last), |last| - 2)
  }

  lemma {:induction false} LinesConcat(ix: Index, a: seq<seq<string>>, b: seq<seq<string>>)
    ensures LinesOf(ix, a + b) == LinesOf(ix, a) + LinesOf(ix, b)
  {
    hide ChildLines;
    if b == [] {
      assert a + b == a;
    } else {
      LinesConcat(ix, a, b[..|b| - 1]);
      assert (a + b)[..|a + b| - 1] == a + b[..|b| - 1];
    }
  }

  lemma LinesOfOne(ix: Index, q: seq<string>)
    requires |q| >= 2
    ensures LinesOf(ix, [q]) == ChildLines(ix, LastOf(q), |q| - 2)
  {
    hide ChildLines;
    assert [q][..0] == [];
  }

  lemma VisitedChild(ix: Index, child: string, depth: nat)
    requires child in ix.sessions
    ensures Visited(ChildLines(ix, child, depth)) == [child]
  {
    var lines := ChildLines(ix, child, depth);
    VisitedConcat(lines[..1], lines[1..]);
    assert lines == lines[..1] + lines[1..] && lines[..1][..0] == [] && lines[1..][..0] == [];
  }

  lemma NoHeaders(ix: Index)
    ensures Witnesses(Visited(LinesOf(ix, [])), [])
  {
  }

  lemma WitnessesStep(visited: seq<string>, paths: seq<seq<string>>, q: seq<string>)
    requires Witnesses(visited, paths) && q != []
    ensures Witnesses(visited + [LastOf(q)], paths + [q])
  {
  }

  /** The headers printed are those of the visited sessions. */
  lemma {:induction false} HeadersOfPaths(ix: Index, paths: seq<seq<string>>)
    requires forall q :: q in paths ==> |q| >= 2 && LastOf(q) in ix.sessions
    ensures Witnesses(Visited(LinesOf(ix, paths)), paths)
  {
    hide ChildLines, LinesOf, Visited, Witnesses;
    if paths == [] {
      NoHeaders(ix);
    } else {
      var init, last := paths[..|paths| - 1], paths[|paths| - 1];
      assert last in paths;
      assert init + [last] == paths;
      HeadersOfPaths(ix, init);
      LinesConcat(ix, init, [last]);
      LinesOfOne(ix, last);
      VisitedChild(ix, LastOf(last), |last| - 2);
      VisitedConcat(LinesOf(ix, init), ChildLines(ix, LastOf(last), |last| - 2));
      WitnessesStep(Visited(LinesOf(ix, init)), init, last);
    }
  }

  /** The header and transcript lines of one child. */
  method RenderChild(ix: Index, child: string, depth: nat) returns (lines: seq<Line>, rendered: bool)
    requires child in ix.sessions
    ensures rendered == Renderable(ix, child)
    ensures lines == ChildLines(ix, child, depth)
  {
    lines := [Header(child, depth)];
    rendered := false;
    match ix.sessions[child].transcript {
      case Missing => lines := lines + [NoTranscript(depth)];
      case Unreadable => lines := lines + [ReadError(depth)];
      case Events(count) =>
        if count == 0 {
          lines := lines + [EmptyTranscript(depth)];
        } else {
          lines := lines + [TraceOf(child, depth)];
          rendered := true;
        }
    }
  }

  lemma NextChild(ix: Index, kids: seq<string>, i: nat)
    requires i < |kids| && NoDup(kids) && InCreationOrder(ix, kids)
    ensures kids[i] in Elems(kids) && kids[i] !in kids[..i] && kids[..i + 1] == kids[..i] + [kids[i]]
    ensures InCreationOrder(ix, kids[..i] + [kids[i]])
  {
  }

  /** The recursion on a call path whose root is not on a cycle. */
  method RenderChildren(ix: Index, parent: string, depth: nat, ghost path: seq<string>)
    returns (lines: seq<Line>, ghost paths: seq<seq<string>>)
    requires CallPath(ix, path) && LastOf(path) == parent && NotOnCycle(ix, path[0]) && depth == |path| - 1
    ensures lines == LinesOf(ix, paths)
    ensures Walked(ix, path, paths)
    decreases |ix.sessions| + 1 - |path|, 1
  {
    CallPathHasNoRepeats(ix, path);
    NothingVisited(ix, path);
    lines, paths := [], [];
    var ok, listed := ListChildren(ix, parent);
    KidsAreSessions(ix, parent);
    var kids := SortByCreation(ix, listed);
    for i := 0 to |kids|
      invariant lines == LinesOf(ix, paths)
      invariant WalkedUpTo(ix, path, kids[..i], paths)
    {
      hide WalkedUpTo, DepthFirst, SiblingsInOrder, LinesOf, NotOnCycle, Renderable;
      NextChild(ix, kids, i);
      var more: seq<Line>;
      ghost var below: seq<seq<string>>;
      more, below := RenderOne(ix, parent, kids[i], depth, path);
      OneMoreChild(ix, path, kids[..i], kids[i], paths, below);
      LinesConcat(ix, paths, [path + [kids[i]]] + below);
      lines, paths := lines + more, paths + ([path + [kids[i]]] + below);
    }
    assert kids[..|kids|] == kids;
    AllChildrenWalked(ix, path, kids, paths);
  }

  lemma OneCallDeeper(ix: Index, path: seq<string>, child: string)
    requires CallPath(ix, path) && NotOnCycle(ix, path[0]) && child in Kids(ix, LastOf(path)) && Renderable(ix, child)
    ensures CallPath(ix, path + [child]) && LastOf(path + [child]) == child
    ensures NotOnCycle(ix, (path + [child])[0]) && |path| + 1 <= |ix.sessions| + 1
  {
    assert CallPath(ix, path + [child]) by { hide NotOnCycle; }
    CallPathHasNoRepeats(ix, path + [child]);
    hide Path, NotOnCycle;
  }

  /** One child: its own lines, then everything below it when it renders. */
  method RenderOne(ix: Index, ghost parent: string, child: string, depth: nat, ghost path: seq<string>)
    returns (lines: seq<Line>, ghost below: seq<seq<string>>)
    requires CallPath(ix, path) && LastOf(path) == parent && NotOnCycle(ix, path[0]) && depth == |path| - 1
    requires child in Kids(ix, parent) && |path| <= |ix.sessions| + 1
    ensures lines == LinesOf(ix, [path + [child]] + below)
    ensures NoDup(below) && SiblingsInOrder(ix, below) && DepthFirst(below)
    ensures forall q :: q in below <==> Renderable(ix, child) && IsVisit(ix, path + [child], q)
    decreases |ix.sessions| + 1 - |path|, 0
  {
    hide LinesOf, ChildLines, Renderable, Path, Kids, NotOnCycle, SiblingsInOrder, DepthFirst;
    var rendered;
    KidsAreSessions(ix, parent);
    lines, rendered := RenderChild(ix, child, depth);
    below := [];
    LinesOfOne(ix, path + [child]);
    if rendered {
      OneCallDeeper(ix, path, child);
      var more: seq<Line>;
      more, below := RenderChildren(ix, child, depth + 1, path + [child]);
      LinesConcat(ix, [path + [child]], below);
      lines := lines + more;
    } else {
      NothingBelow(ix);
      assert [path + [child]] + below == [path + [child]];
    }
  }

  // ---------------------------------------------------------------- what the walk visits

  /** What the line after a session's header has to be, read off the session's transcript. */
  ghost predicate Reports(ix: Index, id: string, depth: nat, line: Line) {
    && id in ix.sessions
    && (line == NoTranscript(depth) <==> ix.sessions[id].transcript == Missing)
    && (line == ReadError(depth) <==> ix.sessions[id].transcript == Unreadable)
    && (line == EmptyTranscript(depth) <==> ix.sessions[id].transcript == Events(0))
    && (line == TraceOf(id, depth) <==>
          ix.sessions[id].transcript != Missing && ix.sessions[id].transcript != Unreadable
          && ix.sessions[id].transcript != Events(0))
  }

  /** Two lines for each path: the header of its last session, indented by the path's length,
      and what became of its transcript. */
  ghost predicate PrintedPairs(ix: Index, lines: seq<Line>, paths: seq<seq<string>>) {
    |lines| == 2 * |paths| &&
    forall k :: 0 <= k < |paths| ==> PrintedPair(ix, lines, 2 * k, paths[k])
  }

  ghost predicate PrintedPair(ix: Index, lines: seq<Line>, at: nat, path: seq<string>) {
    && at + 1 < |lines| && |path| >= 2
    && lines[at] == Header(LastOf(path), |path| - 2)
    && Reports(ix, LastOf(path), |path| - 2, lines[at + 1])
  }

  lemma PairOfOne(ix: Index, q: seq<string>)
    requires |q| >= 2 && LastOf(q) in ix.sessions
    ensures |LinesOf(ix, [q])| == 2 && PrintedPair(ix, LinesOf(ix, [q]), 0, q)
  {
    LinesOfOne(ix, q);
  }

  lemma OneMorePair(ix: Index, lines: seq<Line>, paths: seq<seq<string>>, more: seq<Line>, q: seq<string>)
    requires PrintedPairs(ix, lines, paths) && |more| == 2 && PrintedPair(ix, more, 0, q)
    ensures PrintedPairs(ix, lines + more, paths + [q])
  {
    hide Reports;
    forall k | 0 <= k < |paths| ensures PrintedPair(ix, lines + more, 2 * k, (paths + [q])[k]) {
      assert PrintedPair(ix, lines, 2 * k, paths[k]);
    }
  }

  lemma NothingPrinted(ix: Index)
    ensures PrintedPairs(ix, LinesOf(ix, []), [])
  {
  }

  lemma {:induction false} PathsArePrintedInPairs(ix: Index, paths: seq<seq<string>>)
    requires forall q :: q in paths ==> |q| >= 2 && LastOf(q) in ix.sessions
    ensures PrintedPairs(ix, LinesOf(ix, paths), paths)
  {
    hide ChildLines, LinesOf, PrintedPairs, PrintedPair;
    if paths == [] {
      NothingPrinted(ix);
    } else {
      var init, last := paths[..|paths| - 1], paths[|paths| - 1];
      assert init + [last] == paths && last in paths;
      PathsArePrintedInPairs(ix, init);
      LinesConcat(ix, init, [last]);
      PairOfOne(ix, last);
      OneMorePair(ix, LinesOf(ix, init), init, LinesOf(ix, [last]), last);
    }
  }

  /** A header or a trace in the output, at a depth, comes from a visit of that length. */
  ghost predicate VisitAt(ix: Index, root: string, x: string, depth: nat) {
    exists q :: IsVisit(ix, [root], q) && LastOf(q) == x && |q| == depth + 2
  }

  lemma ReportedTrace(ix: Index, id: string, depth: nat, line: Line)
    requires Reports(ix, id, depth, line)
    ensures line.TraceOf? ==> line == TraceOf(id, depth)
    ensures line == TraceOf(id, depth) <==> Renderable(ix, id)
    ensures !line.Header?
  {
  }

  lemma LinesMeanVisits(ix: Index, root: string, lines: seq<Line>, paths: seq<seq<string>>, x: string, depth: nat)
    requires Walked(ix, [root], paths) && PrintedPairs(ix, lines, paths)
    ensures Header(x, depth) in lines ==> VisitAt(ix, root, x, depth)
    ensures TraceOf(x, depth) in lines ==> VisitAt(ix, root, x, depth) && Renderable(ix, x)
  {
    hide IsVisit, SiblingsInOrder, DepthFirst, Reports, Renderable;
    if Header(x, depth) in lines || TraceOf(x, depth) in lines {
      forall i | 0 <= i < |lines| && (lines[i] == Header(x, depth) || lines[i] == TraceOf(x, depth))
        ensures VisitAt(ix, root, x, depth) && (lines[i].TraceOf? ==> Renderable(ix, x))
      {
        var q := paths[i / 2];
        assert PrintedPair(ix, lines, 2 * (i / 2), q);
        assert q in paths;
        ReportedTrace(ix, LastOf(q), |q| - 2, lines[2 * (i / 2) + 1]);
      }
    }
  }

  lemma VisitsAreLines(ix: Index, root: string, lines: seq<Line>, paths: seq<seq<string>>, x: string, depth: nat)
    requires Walked(ix, [root], paths) && PrintedPairs(ix, lines, paths) && VisitAt(ix, root, x, depth)
    ensures Header(x, depth) in lines
    ensures Renderable(ix, x) ==> TraceOf(x, depth) in lines
  {
    hide IsVisit, SiblingsInOrder, DepthFirst, Reports, Renderable;
    var q :| IsVisit(ix, [root], q) && LastOf(q) == x && |q| == depth + 2;
    assert q in paths;
    var k :| 0 <= k < |paths| && paths[k] == q;
    assert PrintedPair(ix, lines, 2 * k, q);
    ReportedTrace(ix, x, depth, lines[2 * k + 1]);
    assert lines[2 * k] in lines && lines[2 * k + 1] in lines;
  }

  /** One level down: a visit ends at x exactly when the one above ends at x's parent, which renders. */
  lemma VisitOneDown(ix: Index, root: string, x: string, depth: nat)
    ensures VisitAt(ix, root, x, 0) <==> x in Kids(ix, root)
    ensures VisitAt(ix, root, x, depth + 1) <==>
            exists p :: VisitAt(ix, root, p, depth) && Renderable(ix, p) && x in Kids(ix, p)
  {
    hide Renderable, Kids;
    if x in Kids(ix, root) {
      assert IsVisit(ix, [root], [root, x]) && LastOf([root, x]) == x;
    }
    if VisitAt(ix, root, x, 0) {
      var q :| IsVisit(ix, [root], q) && LastOf(q) == x && |q| == 2;
      assert q[0 + 1] in Kids(ix, q[0]);
    }
    if VisitAt(ix, root, x, depth + 1) {
      var q :| IsVisit(ix, [root], q) && LastOf(q) == x && |q| == depth + 3;
      var up := q[..|q| - 1];
      assert IsVisit(ix, [root], up) && LastOf(up) == q[|q| - 2] && Renderable(ix, q[|q| - 2]);
      assert q[|q| - 2 + 1] in Kids(ix, q[|q| - 2]);
      assert VisitAt(ix, root, LastOf(up), depth);
    }
    if p :| VisitAt(ix, root, p, depth) && Renderable(ix, p) && x in Kids(ix, p) {
      var up :| IsVisit(ix, [root], up) && LastOf(up) == p && |up| == depth + 2;
      var q := up + [x];
      assert IsVisit(ix, [root], q) && LastOf(q) == x;
    }
  }

  /** Headers and traces, with their depths, are those of the visits. */
  ghost predicate ShowsVisits(ix: Index, root: string, lines: seq<Line>) {
    && (forall x, d :: Header(x, d) in lines <==> VisitAt(ix, root, x, d))
    && (forall x, d :: TraceOf(x, d) in lines <==> VisitAt(ix, root, x, d) && Renderable(ix, x))
  }

  /** Seen from the output alone: the root's children are listed first level, and a session is
      listed one level down exactly when its parent's trace is printed. */
  ghost predicate DescendsAfterTraces(ix: Index, root: string, lines: seq<Line>) {
    && (forall x :: Header(x, 0) in lines <==> x in Kids(ix, root))
    && (forall x, d: nat :: ListedBelow(ix, lines, x, d))
  }

  ghost predicate ListedBelow(ix: Index, lines: seq<Line>, x: string, d: nat) {
    Header(x, d + 1) in lines <==> exists p :: TraceOf(p, d) in lines && x in Kids(ix, p)
  }

  lemma VisitsAreShown(ix: Index, root: string, lines: seq<Line>, paths: seq<seq<string>>)
    requires Walked(ix, [root], paths) && PrintedPairs(ix, lines, paths)
    ensures ShowsVisits(ix, root, lines) && DescendsAfterTraces(ix, root, lines)
  {
    hide Walked, PrintedPairs, Renderable, VisitAt, Kids;
    forall x, d: nat
      ensures Header(x, d) in lines <==> VisitAt(ix, root, x, d)
      ensures TraceOf(x, d) in lines <==> VisitAt(ix, root, x, d) && Renderable(ix, x)
    {
      LinesMeanVisits(ix, root, lines, paths, x, d);
      if VisitAt(ix, root, x, d) { VisitsAreLines(ix, root, lines, paths, x, d); }
    }
    forall x ensures Header(x, 0) in lines <==> x in Kids(ix, root) { VisitOneDown(ix, root, x, 0); }
    forall x, d: nat ensures ListedBelow(ix, lines, x, d) { VisitOneDown(ix, root, x, d); }
  }

  /** The trace command's walk below a session: it ends and prints, depth-first and siblings
      by creation time, two lines for every session reachable through renderable sessions,
      its header and then at once its trace or the reason why there is none, both indented by
      its distance from the root; each such session has exactly one header, no other has any. */
  method RenderChildSessions(ix: Index, root: string) returns (lines: seq<Line>)
    requires NotOnCycle(ix, root)
    ensures exists paths :: Walked(ix, [root], paths) && PrintedPairs(ix, lines, paths)
    ensures NoDup(Visited(lines))
    ensures forall x :: x in Visited(lines) <==> exists q :: IsVisit(ix, [root], q) && LastOf(q) == x
    ensures ShowsVisits(ix, root, lines) && DescendsAfterTraces(ix, root, lines)
  {
    ghost var paths: seq<seq<string>>;
    assert LastOf([root]) == root;
    lines, paths := RenderChildren(ix, root, 0, [root]);
    hide LinesOf, Visited, SiblingsInOrder, DepthFirst, ShowsVisits, DescendsAfterTraces, PrintedPairs;
    forall q | q in paths ensures |q| >= 2 && LastOf(q) in ix.sessions { VisitEnds(ix, root, q); }
    HeadersOfPaths(ix, paths);
    PathsArePrintedInPairs(ix, paths);
    HeadersOfVisits(ix, root, Visited(lines), paths);
    VisitsAreShown(ix, root, lines, paths);
  }

  lemma VisitEnds(ix: Index, root: string, q: seq<string>)
    requires IsVisit(ix, [root], q)
    ensures |q| >= 2 && LastOf(q) in ix.sessions
  {
    assert q[|q| - 2 + 1] in Kids(ix, q[|q| - 2]);
  }

  lemma HeadersOfVisits(ix: Index, root: string, visited: seq<string>, paths: seq<seq<string>>)
    requires NotOnCycle(ix, root) && Witnesses(visited, paths) && Walked(ix, [root], paths)
    ensures NoDup(visited)
    ensures forall x :: x in visited <==> exists q :: IsVisit(ix, [root], q) && LastOf(q) == x
  {
    hide IsVisit, SiblingsInOrder, DepthFirst;
    forall i, j | 0 <= i < j < |visited| ensures visited[i] != visited[j] {
      if visited[i] == visited[j] {
        assert paths[i] in paths && paths[j] in paths;
        VisitsAreUnique(ix, root, paths[i], paths[j]);
      }
    }
    forall x | x in visited ensures exists q :: IsVisit(ix, [root], q) && LastOf(q) == x {
      var i :| 0 <= i < |visited| && visited[i] == x;
      assert paths[i] in paths;
    }
    forall q | IsVisit(ix, [root], q) ensures q != [] && LastOf(q) in visited {
      assert q in paths;
      var i :| 0 <= i < |paths| && paths[i] == q;
    }
  }

  /** Where a renderable session below the root leads back to it, recursion is unbounded:
      there are call paths of every length. */
  lemma {:induction false} CycleDescendsForever(ix: Index, cycle: seq<string>, n: nat) returns (p: seq<string>)
    requires CallPath(ix, cycle) && |cycle| >= 2 && LastOf(cycle) == cycle[0]
    ensures CallPath(ix, p) && p[0] == cycle[0] && LastOf(p) == cycle[0] && |p| > n
  {
    if n == 0 {
      p := cycle;
    } else {
      var shorter := CycleDescendsForever(ix, cycle, n - 1);
      p := shorter + cycle[1..];
      forall i | 0 <= i < |p| - 1 ensures p[i + 1] in Kids(ix, p[i]) {
        if i >= |shorter| - 1 {
          assert p[i] == cycle[i - |shorter| + 1] && p[i + 1] == cycle[i - |shorter| + 2];
        }
      }
    }
  }

  /** There is a limit to how deep the walk's calls can go. */
  ghost predicate Bounded(ix: Index, root: string) {
    exists n: nat :: LimitedTo(ix, root, n)
  }

  ghost predicate LimitedTo(ix: Index, root: string, n: nat) {
    forall p :: CallPath(ix, p) && p[0] == root ==> |p| <= n
  }

  /** The recursion is bounded exactly when no renderable session below the root leads back to it. */
  lemma BoundedExactlyWhenNotOnCycle(ix: Index, root: string)
    ensures Bounded(ix, root) <==> NotOnCycle(ix, root)
  {
    if NotOnCycle(ix, root) {
      forall p | CallPath(ix, p) && p[0] == root ensures |p| <= |ix.sessions| + 1 {
        CallPathHasNoRepeats(ix, p);
      }
      assert LimitedTo(ix, root, |ix.sessions| + 1);
    }
    if Bounded(ix, root) && !NotOnCycle(ix, root) {
      var n: nat :| LimitedTo(ix, root, n);
      var cycle :| CallPath(ix, cycle) && |cycle| >= 2 && cycle[0] == root && cycle[|cycle| - 1] == root;
      var p := CycleDescendsForever(ix, cycle, n);
      assert false;
    }
  }

  /** Two sessions, each the parent of the other, both with events: the walk has no end. */
  lemma TwoSessionCycle(ix: Index)
    requires ix == Index(map["a" := Meta("b", 0, Events(1)), "b" := Meta("a", 0, Events(1))], {})
    ensures !NotOnCycle(ix, "a") && !Bounded(ix, "a")
  {
    var p := ["a", "b", "a"];
    assert "b" in Kids(ix, "a") && "a" in Kids(ix, "b");
    assert CallPath(ix, p);
    assert !NotOnCycle(ix, "a");
    hide NotOnCycle, Bounded;
    BoundedExactlyWhenNotOnCycle(ix, "a");
  }

  /** The two traversals agree: when every transcript renders, the walk visits exactly what
      the repair worklist reaches from the session, minus the session itself. */
  lemma WalkAgreesWithWorklist(ix: Index, root: string, visited: seq<string>, worklist: set<string>, x: string)
    requires NotOnCycle(ix, root)
    requires forall id :: id in ix.sessions ==> Renderable(ix, id)
    requires forall y :: y in visited <==> exists q :: IsVisit(ix, [root], q) && LastOf(q) == y
    requires IsClosure(ix, [root], worklist)
    ensures x in visited <==> x in worklist && x != root
  {
    ClosureIsTheTree(ix, [root], worklist, x);
    if x in visited {
      var q :| IsVisit(ix, [root], q) && LastOf(q) == x;
      forall i | 1 <= i < |q| ensures Renderable(ix, q[i]) {
        assert q[i] in Kids(ix, q[i - 1]);
      }
      assert CallPath(ix, q);
      assert Descends(ix, root, x);
    }
    if x in worklist && x != root {
      var p :| Path(ix, p) && p[0] == root && p[|p| - 1] == x;
      assert |p| > 1;
      forall i | 1 <= i < |p| ensures Renderable(ix, p[i]) {
        assert p[i] in Kids(ix, p[i - 1]);
      }
      assert IsVisit(ix, [root], p);
    }
  }

  /** In general the walk prunes: it visits only sessions the worklist also reaches. */
  lemma WalkStaysInWorklist(ix: Index, root: string, worklist: set<string>, q: seq<string>)
    requires IsClosure(ix, [root], worklist) && IsVisit(ix, [root], q)
    ensures LastOf(q) in worklist
  {
    ClosureIsTheTree(ix, [root], worklist, LastOf(q));
  }
}
