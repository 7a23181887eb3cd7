/** Session trees: the ancestor chain, the repair worklist that closes it under children,
    and the recursive sub-session walk of the trace command. */
module SessionTree {
  import opened Seqs

  datatype Transcript = Missing | Unreadable | Events(count: nat)

  datatype Meta = Meta(parent: string, createdAt: int, transcript: Transcript)

  /** The session index; listing the children of a failing identifier returns an error. */
  datatype Index = Index(sessions: map<string, Meta>, failing: set<string>)

  function Kids(ix: Index, p: string): set<string> {
    if p in ix.failing then {} else set c | c in ix.sessions && ix.sessions[c].parent == p
  }

  ghost predicate Closed(ix: Index, s: set<string>) {
    forall p :: p in s ==> Kids(ix, p) <= s
  }

  /** Map iteration: the children in no particular order. */
  method ListChildren(ix: Index, p: string) returns (ok: bool, kids: seq<string>)
    ensures ok <==> p !in ix.failing
    ensures Elems(kids) == Kids(ix, p) && NoDup(kids)
    ensures forall c :: c in Elems(kids) <==> p !in ix.failing && c in ix.sessions && ix.sessions[c].parent == p
  {
    hide Elems, NoDup;
    EmptyElems<string>();
    kids := [];
    if p in ix.failing {
      return false, [];
    }
    ok := true;
    var rest := Kids(ix, p);
    while rest != {}
      invariant NoDup(kids) && Elems(kids) + rest == Kids(ix, p) && Elems(kids) !! rest
      decreases |rest|
    {
      var c :| c in rest;
      AppendFresh(kids, c);
      kids := kids + [c];
      rest := rest - {c};
    }
  }

  // ---------------------------------------------------------------- ancestor chain

  /** Root first, each session above its child, the requested session last; the first has
      no usable parent or closes a cycle. */
  ghost predicate IsAncestorChain(ix: Index, chain: seq<string>, id: string) {
    && |chain| >= 1 && chain[|chain| - 1] == id && NoDup(chain)
    && (forall i :: 1 <= i < |chain| ==> chain[i] in ix.sessions && ix.sessions[chain[i]].parent == chain[i - 1])
    && (chain[0] !in ix.sessions || ix.sessions[chain[0]].parent == "" || ix.sessions[chain[0]].parent in chain)
  }

  method AncestorChain(ix: Index, sessionID: string) returns (chain: seq<string>)
    ensures sessionID == "" ==> chain == []
    ensures sessionID != "" ==> IsAncestorChain(ix, chain, sessionID)
  {
    if sessionID == "" {
      return [];
    }
    var upward := AncestorsUpward(ix, sessionID);
    chain := Reverse(upward);
    forall x | x in upward ensures x in chain {
      var i :| 0 <= i < |upward| && upward[i] == x;
      assert chain[|upward| - 1 - i] == x;
    }
  }

  /** The upward walk, requested session first. */
  method AncestorsUpward(ix: Index, sessionID: string) returns (upward: seq<string>)
    requires sessionID != ""
    ensures upward != [] && upward[0] == sessionID && NoDup(upward)
    ensures Upward(ix, upward)
    ensures var top := upward[|upward| - 1];
      top !in ix.sessions || ix.sessions[top].parent == "" || ix.sessions[top].parent in upward
  {
    hide NoDup, Elems;
    EmptyElems<string>();
    upward := [];
    var seen: set<string> := {};
    var cur := sessionID;
    while cur != "" && cur !in seen
      invariant seen == Elems(upward) && NoDup(upward) && Upward(ix, upward)
      invariant upward == [] ==> cur == sessionID
      invariant upward != [] ==> upward[0] == sessionID && upward[|upward| - 1] in ix.sessions
                                 && ix.sessions[upward[|upward| - 1]].parent == cur
      decreases |ix.sessions.Keys - seen|
    {
      AppendFresh(upward, cur);
      if cur !in ix.sessions || ix.sessions[cur].parent == "" {
        upward := upward + [cur];
        return;
      }
      OneLess(ix.sessions.Keys, seen, cur);
      seen := seen + {cur};
      upward := upward + [cur];
      cur := ix.sessions[cur].parent;
    }
    AppendFresh(upward, cur);
  }

  ghost predicate Upward(ix: Index, s: seq<string>) {
    forall i :: 0 <= i < |s| - 1 ==> s[i] in ix.sessions && ix.sessions[s[i]].parent == s[i + 1]
  }

  // ---------------------------------------------------------------- the repair worklist

  /** Inside every closed set that contains the chain. */
  ghost predicate Least(ix: Index, chain: seq<string>, s: set<string>) {
    forall other :: Elems(chain) <= other && Closed(ix, other) ==> s <= other
  }

  /** The least set that contains the chain and is closed under children. */
  ghost predicate IsClosure(ix: Index, chain: seq<string>, s: set<string>) {
    Elems(chain) <= s && Closed(ix, s) && Least(ix, chain, s)
  }

  lemma LeastStep(ix: Index, chain: seq<string>, s: set<string>, p: string)
    requires Least(ix, chain, s) && p in s
    ensures Least(ix, chain, s + Kids(ix, p))
  {
  }

  /** The queue grows while it is scanned. */
  method RepairQueue(ix: Index, chain: seq<string>) returns (queue: seq<string>)
    requires NoDup(chain)
    ensures chain <= queue && NoDup(queue)
    ensures IsClosure(ix, chain, Elems(queue))
  {
    assert Least(ix, chain, Elems(chain)) && Scanned(ix, chain, 0, Elems(chain));
    hide NoDup, Least, Kids, Elems, Closed, Scanned;
    queue := chain;
    var seen := Elems(chain);
    var i := 0;
    while i < |queue|
      invariant 0 <= i <= |queue| && chain <= queue && NoDup(queue) && seen == Elems(queue)
      invariant Scanned(ix, queue, i, seen) && Least(ix, chain, seen)
      decreases |ix.sessions.Keys - seen| + |queue| - i
    {
      ElemsStep(queue, i);
      LeastStep(ix, chain, seen, queue[i]);
      KidsAreSessions(ix, queue[i]);
      var ok, children := ListChildren(ix, queue[i]);
      var longer, marked := queue, seen;
      if ok {
        longer, marked := EnqueueNew(ix, queue, seen, children);
      }
      ScanStep(ix, queue, longer, i, seen, marked);
      queue, seen, i := longer, marked, i + 1;
    }
    ClosedFromQueue(ix, chain, queue);
  }

  /** The children of the first i queue entries are marked. */
  ghost predicate Scanned(ix: Index, queue: seq<string>, i: nat, seen: set<string>) {
    i <= |queue| && forall k :: 0 <= k < i ==> Kids(ix, queue[k]) <= seen
  }

  lemma ScanStep(ix: Index, queue: seq<string>, longer: seq<string>, i: nat, seen: set<string>, marked: set<string>)
    requires Scanned(ix, queue, i, seen) && i < |queue| && queue <= longer
    requires seen <= marked && Kids(ix, queue[i]) <= marked
    ensures Scanned(ix, longer, i + 1, marked)
  {
    hide Kids;
  }

  lemma ClosedFromQueue(ix: Index, chain: seq<string>, queue: seq<string>)
    requires Scanned(ix, queue, |queue|, Elems(queue))
    requires chain <= queue
    ensures Closed(ix, Elems(queue)) && Elems(chain) <= Elems(queue)
  {
    forall x | x in Elems(chain) ensures x in queue {
      var k :| 0 <= k < |chain| && chain[k] == x;
      assert queue[k] == x;
    }
  }

  lemma KidsAreSessions(ix: Index, p: string)
    ensures Kids(ix, p) <= ix.sessions.Keys
    ensures p in ix.failing ==> Kids(ix, p) == {}
  {
  }

  lemma OneLess(keys: set<string>, marked: set<string>, c: string)
    requires c in keys && c !in marked
    ensures |keys - (marked + {c})| + 1 == |keys - marked|
  {
    assert keys - marked == (keys - (marked + {c})) + {c};
  }

  method EnqueueNew(ix: Index, queue: seq<string>, seen: set<string>, children: seq<string>)
    returns (longer: seq<string>, marked: set<string>)
    requires NoDup(queue) && seen == Elems(queue) && Elems(children) <= ix.sessions.Keys
    ensures queue <= longer && NoDup(longer) && marked == Elems(longer)
    ensures marked == seen + Elems(children)
    ensures |ix.sessions.Keys - marked| + |longer| == |ix.sessions.Keys - seen| + |queue|
  {
    hide Elems, NoDup;
    EmptyElems<string>();
    longer, marked := queue, seen;
    assert children[..0] == [];
    for j := 0 to |children|
      invariant queue <= longer && NoDup(longer) && marked == Elems(longer)
      invariant marked == seen + Elems(children[..j])
      invariant |ix.sessions.Keys - marked| + |longer| == |ix.sessions.Keys - seen| + |queue|
    {
      var c := children[j];
      ElemsStep(children, j);
      if c !in marked {
        OneLess(ix.sessions.Keys, marked, c);
        AppendFresh(longer, c);
        marked := marked + {c};
        longer := longer + [c];
      }
    }
    assert children[..|children|] == children;
  }

  // ---------------------------------------------------------------- descendants

  /** A downward path: each node is a listed child of the one before. */
  ghost predicate Path(ix: Index, p: seq<string>) {
    |p| >= 1 && forall i :: 0 <= i < |p| - 1 ==> p[i + 1] in Kids(ix, p[i])
  }

  ghost predicate Descends(ix: Index, root: string, x: string) {
    exists p :: Path(ix, p) && p[0] == root && p[|p| - 1] == x
  }

  lemma {:induction false} PathStaysInClosedSet(ix: Index, p: seq<string>, s: set<string>)
    requires Path(ix, p) && Closed(ix, s) && p[0] in s
    ensures p[|p| - 1] in s
  {
    if |p| > 1 {
      PathStaysInClosedSet(ix, p[..|p| - 1], s);
    }
  }

  lemma DescendantsClosed(ix: Index, root: string, p: string, c: string)
    requires Descends(ix, root, p) && c in Kids(ix, p)
    ensures Descends(ix, root, c)
  {
    var path :| Path(ix, path) && path[0] == root && path[|path| - 1] == p;
    assert Path(ix, path + [c]);
  }

  /** From a chain whose links are listed, the closure is the whole tree under its root. */
  lemma ClosureIsTheTree(ix: Index, chain: seq<string>, s: set<string>, x: string)
    requires Path(ix, chain) && IsClosure(ix, chain, s)
    ensures x in s <==> Descends(ix, chain[0], x)
  {
    var root := chain[0];
    var tree := set y | y in s && Descends(ix, root, y);
    forall i | 0 <= i < |chain| ensures chain[i] in tree {
      assert Path(ix, chain[..i + 1]);
      assert chain[i] in Elems(chain);
    }
    forall p, c | p in tree && c in Kids(ix, p) ensures c in tree {
      DescendantsClosed(ix, root, p, c);
    }
    assert Closed(ix, tree);
    assert s <= tree;
    if Descends(ix, root, x) {
      var p :| Path(ix, p) && p[0] == root && p[|p| - 1] == x;
      assert root in Elems(chain);
      PathStaysInClosedSet(ix, p, s);
    }
  }

  /** Repair visits the whole tree that contains the requested session, each session once,
      when the ancestor chain reaches a parentless root and no listing fails. */
  method RepairTargets(ix: Index, id: string) returns (queue: seq<string>)
    requires id != ""
    ensures NoDup(queue) && id in queue
    ensures exists chain :: IsAncestorChain(ix, chain, id) && chain <= queue &&
              IsClosure(ix, chain, Elems(queue)) &&
              (ix.failing == {} ==> forall x :: x in queue <==> Descends(ix, chain[0], x))
  {
    var chain := AncestorChain(ix, id);
    queue := RepairQueue(ix, chain);
    assert queue[|chain| - 1] == id;
    if ix.failing == {} {
      assert Path(ix, chain);
      forall x ensures x in queue <==> Descends(ix, chain[0], x) {
        ClosureIsTheTree(ix, chain, Elems(queue), x);
      }
    }
  }
}
