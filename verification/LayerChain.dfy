/** Overlay layer chains: the walk along parents in the template registry, which may
    be cyclic or dangling, and the registry operations that reshape it. */
module LayerChain {
  import opened Seqs
  import opened Trimming

  const BASE := "@base"

  predicate IsBaseName(name: string) {
    TrimSpace(name) == "" || TrimSpace(name) == "base" || TrimSpace(name) == BASE
  }

  function ParentOf(basedOn: map<string, string>, n: string): string {
    if n in basedOn then basedOn[n] else ""
  }

  /** The walk with the names already visited. */
  function Walk(n: string, basedOn: map<string, string>, seen: set<string>): seq<string>
    decreases |basedOn.Keys - seen|
  {
    if IsBaseName(n) || n in seen then [BASE]
    else if ParentOf(basedOn, n) == "" then [BASE, n]
    else
      Shrinks(basedOn.Keys, seen, n);
      Walk(basedOn[n], basedOn, seen + {n}) + [n]
  }

  lemma Shrinks(keys: set<string>, seen: set<string>, n: string)
    requires n in keys && n !in seen
    ensures |keys - (seen + {n})| < |keys - seen|
  {
    assert keys - seen == (keys - (seen + {n})) + {n};
  }

  lemma WalkCases(n: string, basedOn: map<string, string>, seen: set<string>, suffix: seq<string>)
    ensures IsBaseName(n) || n in seen ==> Walk(n, basedOn, seen) == [BASE]
    ensures !IsBaseName(n) && n !in seen && ParentOf(basedOn, n) == "" ==>
      Walk(n, basedOn, seen) + suffix == [BASE] + ([n] + suffix)
    ensures !IsBaseName(n) && n !in seen && ParentOf(basedOn, n) != "" ==>
      Walk(n, basedOn, seen) + suffix == Walk(basedOn[n], basedOn, seen + {n}) + ([n] + suffix)
  {
  }

  function Chain(name: string, basedOn: map<string, string>): seq<string> {
    Walk(name, basedOn, {})
  }

  method WalkMarking(n: string, basedOn: map<string, string>, seen: set<string>)
    returns (chain: seq<string>, marked: set<string>)
    ensures chain == Walk(n, basedOn, seen)
    ensures seen <= marked
    decreases |basedOn.Keys - seen|
  {
    marked := seen;
    if IsBaseName(n) || n in marked {
      return [BASE], marked;
    }
    marked := marked + {n};
    var parent := "";
    if n in basedOn {
      parent := basedOn[n];
    }
    if parent == "" {
      return [BASE, n], marked;
    }
    Shrinks(basedOn.Keys, seen, n);
    chain, marked := WalkMarking(parent, basedOn, marked);
    chain := chain + [n];
  }

  method OverlayLayerChain(name: string, basedOn: map<string, string>) returns (chain: seq<string>)
    ensures chain == Chain(name, basedOn)
  {
    if IsBaseName(name) {
      return [BASE];
    }
    var seen: set<string> := {};
    chain, seen := WalkMarking(name, basedOn, seen);
  }

  // ---------------------------------------------------------------- what a chain is

  /** The chain of a name other than the base, without reference to any walk: it starts at
      the base, ends at the name, repeats nothing, links each layer to its parent, and
      stops only where the next parent is the base or already in the chain. */
  ghost predicate IsChain(c: seq<string>, name: string, basedOn: map<string, string>) {
    && |c| >= 2 && c[0] == BASE && c[|c| - 1] == name
    && NoDup(c)
    && (forall i :: 1 <= i < |c| ==> !IsBaseName(c[i]))
    && (forall i :: 2 <= i < |c| ==> ParentOf(basedOn, c[i]) == c[i - 1])
    && (IsBaseName(ParentOf(basedOn, c[1])) || ParentOf(basedOn, c[1]) in c[1..])
  }

  lemma BaseNames()
    ensures IsBaseName("") && IsBaseName("base") && IsBaseName(BASE)
  {
    assert TrimLeft(BASE) == BASE && TrimRight(BASE) == BASE;
    assert TrimLeft("base") == "base" && TrimRight("base") == "base";
  }

  /** The base goes by three names, with or without white space around them. */
  lemma NamesOfTheBase(lead: string, name: string, tail: string)
    requires forall c :: c in lead + tail ==> IsSpace(c)
    requires name == "" || name == "base" || name == "@base"
    ensures IsBaseName(lead + name + tail)
  {
    TrimPadded(lead, name, tail);
    hide TrimSpace;
  }

  /** The upper part of a chain: distinct linked layers. */
  ghost predicate Linked(s: seq<string>, basedOn: map<string, string>) {
    && NoDup(s)
    && (forall i :: 0 <= i < |s| ==> !IsBaseName(s[i]))
    && (forall i :: 1 <= i < |s| ==> ParentOf(basedOn, s[i]) == s[i - 1])
  }

  lemma BaseUnderLinked(s: seq<string>, basedOn: map<string, string>)
    requires s != [] && Linked(s, basedOn)
    requires IsBaseName(ParentOf(basedOn, s[0])) || ParentOf(basedOn, s[0]) in s
    ensures IsChain([BASE] + s, s[|s| - 1], basedOn)
  {
    BaseNames();
    hide IsBaseName;
    assert ([BASE] + s)[1..] == s;
  }

  lemma GrowLinked(n: string, suffix: seq<string>, basedOn: map<string, string>)
    requires Linked(suffix, basedOn) && !IsBaseName(n) && n !in suffix
    requires suffix != [] ==> ParentOf(basedOn, suffix[0]) == n
    ensures Linked([n] + suffix, basedOn) && Elems([n] + suffix) == Elems(suffix) + {n}
  {
    hide IsBaseName;
  }

  lemma {:induction false} WalkExtends(n: string, basedOn: map<string, string>, suffix: seq<string>)
    requires !IsBaseName(n) || suffix != []
    requires Linked(suffix, basedOn)
    requires suffix != [] ==> ParentOf(basedOn, suffix[0]) == n
    ensures IsChain(Walk(n, basedOn, Elems(suffix)) + suffix,
                    if suffix == [] then n else suffix[|suffix| - 1], basedOn)
    decreases |basedOn.Keys - Elems(suffix)|
  {
    BaseNames();
    WalkCases(n, basedOn, Elems(suffix), suffix);
    hide IsBaseName, IsChain, Linked, Walk;
    if IsBaseName(n) || n in suffix {
      BaseUnderLinked(suffix, basedOn);
    } else {
      var longer := [n] + suffix;
      GrowLinked(n, suffix, basedOn);
      if ParentOf(basedOn, n) == "" {
        BaseUnderLinked(longer, basedOn);
      } else {
        Shrinks(basedOn.Keys, Elems(suffix), n);
        WalkExtends(basedOn[n], basedOn, longer);
      }
    }
  }

  lemma {:induction false} ChainsAgreeFromTheEnd(
      c: seq<string>, d: seq<string>, name: string, basedOn: map<string, string>, k: nat)
    requires IsChain(c, name, basedOn) && IsChain(d, name, basedOn)
    requires k < |c| - 1 && k < |d| - 1
    ensures c[|c| - 1 - k] == d[|d| - 1 - k]
  {
    if k > 0 {
      ChainsAgreeFromTheEnd(c, d, name, basedOn, k - 1);
    }
  }

  lemma ChainNotShorter(c: seq<string>, d: seq<string>, name: string, basedOn: map<string, string>)
    requires IsChain(c, name, basedOn) && IsChain(d, name, basedOn)
    ensures |c| >= |d|
  {
    if |c| < |d| {
      hide IsBaseName;
      var at := |d| - |c| + 1;
      forall i | 1 <= i < |c| ensures c[i] == d[i + at - 1] && c[i] != d[at - 1] {
        ChainsAgreeFromTheEnd(c, d, name, basedOn, |c| - 1 - i);
      }
    }
  }

  /** The walk computes the one sequence that is a chain, on any parent map. */
  lemma ChainIsUnique(c: seq<string>, name: string, basedOn: map<string, string>)
    requires !IsBaseName(name)
    ensures IsChain(c, name, basedOn) <==> c == Chain(name, basedOn)
  {
    hide IsBaseName;
    var w := Chain(name, basedOn);
    WalkExtends(name, basedOn, []);
    assert Elems<string>([]) == {};
    assert w + [] == w;
    if IsChain(c, name, basedOn) {
      ChainNotShorter(c, w, name, basedOn);
      ChainNotShorter(w, c, name, basedOn);
      forall i | 1 <= i < |c| ensures c[i] == w[i] {
        ChainsAgreeFromTheEnd(c, w, name, basedOn, |c| - 1 - i);
      }
    }
  }

  /** Every layer above the second has an entry in the map, so the length is bounded. */
  lemma ChainLength(name: string, basedOn: map<string, string>)
    ensures |Chain(name, basedOn)| <= |basedOn| + 2
  {
    if !IsBaseName(name) {
      var c := Chain(name, basedOn);
      ChainIsUnique(c, name, basedOn);
      BaseNames();
      hide IsBaseName, Chain;
      forall i | 0 <= i < |c[2..]| ensures c[2..][i] in basedOn {
        assert ParentOf(basedOn, c[i + 2]) == c[i + 1];
      }
      NoDupSize(c[2..]);
      SubsetSize(Elems(c[2..]), basedOn.Keys);
    }
  }

  // ---------------------------------------------------------------- extension and plain recursion

  /** chain(child) is chain(parent) followed by child exactly when child is not an ancestor
      of its own parent; a cycle through child is cut instead. */
  lemma ChildExtendsParentChain(n: string, basedOn: map<string, string>)
    requires !IsBaseName(n) && ParentOf(basedOn, n) != ""
    ensures Chain(n, basedOn) == Chain(ParentOf(basedOn, n), basedOn) + [n] <==>
            n !in Chain(ParentOf(basedOn, n), basedOn)
  {
    var p := ParentOf(basedOn, n);
    var pc := Chain(p, basedOn);
    ChainIsUnique(Chain(n, basedOn), n, basedOn);
    ChainIsUnique(pc + [n], n, basedOn);
    ParentChain(p, basedOn);
    hide IsBaseName, Chain, IsChain;
    if n !in pc {
      GrownIsChain(n, p, pc, basedOn);
    } else {
      RepeatIsNoChain(n, pc, basedOn);
    }
  }

  /** The chain of any name: the base alone or a chain proper. */
  lemma ParentChain(p: string, basedOn: map<string, string>)
    ensures if IsBaseName(p) then Chain(p, basedOn) == [BASE] else IsChain(Chain(p, basedOn), p, basedOn)
  {
    if !IsBaseName(p) { ChainIsUnique(Chain(p, basedOn), p, basedOn); }
    hide IsBaseName, IsChain;
  }

  lemma GrownIsChain(n: string, p: string, pc: seq<string>, basedOn: map<string, string>)
    requires !IsBaseName(n) && ParentOf(basedOn, n) == p && n !in pc
    requires if IsBaseName(p) then pc == [BASE] else IsChain(pc, p, basedOn)
    ensures IsChain(pc + [n], n, basedOn)
  {
    hide IsBaseName;
    var c := pc + [n];
    if IsBaseName(p) {
      assert c == [BASE, n];
    } else {
      assert c[1..] == pc[1..] + [n];
    }
  }

  lemma RepeatIsNoChain(n: string, pc: seq<string>, basedOn: map<string, string>)
    requires n in pc
    ensures !IsChain(pc + [n], n, basedOn)
  {
    hide IsBaseName;
    var i :| 0 <= i < |pc| && pc[i] == n;
    assert (pc + [n])[i] == (pc + [n])[|pc|];
  }

  /** A rank witnesses that following parents always ends. */
  ghost predicate Ranked(basedOn: map<string, string>, rank: string -> nat) {
    forall n :: n in basedOn && basedOn[n] != "" && !IsBaseName(n) && !IsBaseName(basedOn[n]) ==>
      rank(basedOn[n]) < rank(n)
  }

  /** Plain parent recursion, which needs an acyclic map to end. */
  ghost function PlainChain(n: string, basedOn: map<string, string>, rank: string -> nat): seq<string>
    requires Ranked(basedOn, rank)
    decreases !IsBaseName(n), rank(n)
  {
    if IsBaseName(n) then [BASE]
    else if ParentOf(basedOn, n) == "" then [BASE, n]
    else PlainChain(basedOn[n], basedOn, rank) + [n]
  }

  lemma {:induction false} PlainChainRanks(n: string, basedOn: map<string, string>, rank: string -> nat, x: string)
    requires Ranked(basedOn, rank) && x in PlainChain(n, basedOn, rank) && x != BASE
    ensures !IsBaseName(n) && rank(x) <= rank(n)
    decreases !IsBaseName(n), rank(n)
  {
    hide IsBaseName;
    if x != n && !IsBaseName(n) && ParentOf(basedOn, n) != "" {
      PlainChainRanks(basedOn[n], basedOn, rank, x);
    }
  }

  /** Refinement: on acyclic maps the cycle-cutting walk is plain parent recursion. */
  lemma {:induction false} AcyclicChainIsPlain(n: string, basedOn: map<string, string>, rank: string -> nat)
    requires Ranked(basedOn, rank)
    ensures Chain(n, basedOn) == PlainChain(n, basedOn, rank)
    decreases !IsBaseName(n), rank(n)
  {
    if !IsBaseName(n) && ParentOf(basedOn, n) != "" {
      var p := basedOn[n];
      AcyclicChainIsPlain(p, basedOn, rank);
      BaseNames();
      hide IsBaseName, Chain;
      if n in PlainChain(p, basedOn, rank) {
        PlainChainRanks(p, basedOn, rank, n);
        assert false;
      }
      ChildExtendsParentChain(n, basedOn);
    }
  }

  // ---------------------------------------------------------------- frame under map changes

  ghost predicate SameOutside(a: map<string, string>, b: map<string, string>, changed: set<string>) {
    forall n :: n !in changed ==> ParentOf(a, n) == ParentOf(b, n)
  }

  /** Entries of names outside a chain do not matter to it. */
  lemma ChainFrame(name: string, before: map<string, string>, after: map<string, string>, changed: set<string>)
    requires SameOutside(before, after, changed)
    requires forall x :: x in Chain(name, before) ==> x !in changed
    ensures Chain(name, after) == Chain(name, before)
  {
    if !IsBaseName(name) {
      var c := Chain(name, before);
      ChainIsUnique(c, name, before);
      ChainIsUnique(c, name, after);
      hide IsBaseName, Chain;
      forall i | 0 <= i < |c| ensures c[i] !in changed { assert c[i] in c; }
    }
  }

  /** When only t changes and its new parent is the base, nothing, or a layer above it in
      the chain, a chain through t becomes the base followed by its suffix from t. Deleting
      t and making t its own parent are both such changes. */
  lemma ChainCutAt(name: string, before: map<string, string>, after: map<string, string>, k: nat)
    requires !IsBaseName(name)
    requires var c := Chain(name, before);
      && 1 <= k < |c| && SameOutside(before, after, {c[k]})
      && (IsBaseName(ParentOf(after, c[k])) || ParentOf(after, c[k]) in c[k..])
    ensures Chain(name, after) == [BASE] + Chain(name, before)[k..]
  {
    var c := Chain(name, before);
    ChainIsUnique(c, name, before);
    var d := [BASE] + c[k..];
    ChainIsUnique(d, name, after);
    hide IsBaseName, Chain;
    assert d[1..] == c[k..];
    forall i | 2 <= i < |d| ensures ParentOf(after, d[i]) == d[i - 1] {
      assert d[i] == c[i + k - 1] && d[i] != c[k];
      assert ParentOf(before, c[i + k - 1]) == c[i + k - 2];
    }
    assert IsChain(d, name, after);
  }

  lemma DeletionCutsChain(name: string, basedOn: map<string, string>, t: string)
    requires !IsBaseName(name) && !IsBaseName(t) && t in Chain(name, basedOn)
    ensures exists k :: 1 <= k < |Chain(name, basedOn)| && Chain(name, basedOn)[k] == t &&
                        Chain(name, basedOn - {t}) == [BASE] + Chain(name, basedOn)[k..]
  {
    var c := Chain(name, basedOn);
    ChainIsUnique(c, name, basedOn);
    BaseNames();
    hide IsBaseName, Chain;
    var k :| 0 <= k < |c| && c[k] == t;
    ChainCutAt(name, basedOn, basedOn - {t}, k);
  }
}
