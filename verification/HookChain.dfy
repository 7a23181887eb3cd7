/** Composition of hooks and interceptors around an operation. */
module HookChain {
  import opened Seqs

  /** A chain as the wrapping loop builds it. */
  datatype Mutator<H> = Exec | Wrapped(hook: H, next: Mutator<H>)

  /** Hook 0 outermost. */
  function Chain<H>(hooks: seq<H>): Mutator<H> {
    if hooks == [] then Exec else Wrapped(hooks[0], Chain(hooks[1..]))
  }

  /** The loop runs from the last hook to the first. */
  method BuildChain<H>(hooks: seq<H>) returns (mut: Mutator<H>)
    ensures mut == Chain(hooks)
  {
    mut := Exec;
    assert hooks[|hooks|..] == [];
    for i := |hooks| downto 0
      invariant mut == Chain(hooks[i..])
    {
      assert hooks[i..][1..] == hooks[i + 1..];
      mut := Wrapped(hooks[i], mut);
    }
    assert hooks[0..] == hooks;
  }

  /** A hook that may veto instead of calling the next mutator. */
  datatype Gate = Gate(name: string, forwards: bool)

  datatype Step = Enter(name: string) | Run | Leave(name: string)

  /** What invoking a chain does, step by step. */
  function Steps(mut: Mutator<Gate>): seq<Step> {
    match mut
    case Exec => [Run]
    case Wrapped(g, next) => [Enter(g.name)] + (if g.forwards then Steps(next) else []) + [Leave(g.name)]
  }

  datatype HooksResult = Executed(steps: seq<Step>) | Uninitialized

  ghost predicate AllSet<H>(hooks: seq<Option<H>>) {
    forall i :: 0 <= i < |hooks| ==> hooks[i].Some?
  }

  function Values<H>(hooks: seq<Option<H>>): seq<H>
    requires forall i :: 0 <= i < |hooks| ==> hooks[i].Some?
  {
    seq(|hooks|, i requires 0 <= i < |hooks| => hooks[i].value)
  }

  /** A nil hook anywhere means that neither the operation nor any hook's mutator runs. */
  method WithHooks(hooks: seq<Option<Gate>>) returns (r: HooksResult)
    ensures r.Executed? <==> AllSet(hooks)
    ensures AllSet(hooks) ==> r == Executed(Steps(Chain(Values(hooks))))
  {
    if |hooks| == 0 {
      return Executed([Run]);
    }
    var mut: Mutator<Gate> := Exec;
    for i := |hooks| downto 0
      invariant AllSet(hooks[i..])
      invariant mut == Chain(Values(hooks[i..]))
    {
      if hooks[i].None? {
        return Uninitialized;
      }
      assert Values(hooks[i..])[1..] == Values(hooks[i + 1..]);
      mut := Wrapped(hooks[i].value, mut);
    }
    assert hooks[0..] == hooks;
    r := Executed(Steps(mut));
  }

  /** The first gate that does not forward, or the number of gates. */
  function FirstVeto(gates: seq<Gate>): (k: nat)
    ensures k <= |gates|
    ensures forall i :: 0 <= i < k ==> gates[i].forwards
    ensures k < |gates| ==> !gates[k].forwards
  {
    if gates == [] || !gates[0].forwards then 0 else 1 + FirstVeto(gates[1..])
  }

  function Entering(gates: seq<Gate>): seq<Step> {
    seq(|gates|, i requires 0 <= i < |gates| => Enter(gates[i].name))
  }

  function Leaving(gates: seq<Gate>): seq<Step> {
    seq(|gates|, i requires 0 <= i < |gates| => Leave(gates[|gates| - 1 - i].name))
  }

  /** The gates up to and including the first veto. */
  function Reached(gates: seq<Gate>): seq<Gate> {
    if FirstVeto(gates) < |gates| then gates[..FirstVeto(gates) + 1] else gates
  }

  lemma ReachedCons(gates: seq<Gate>)
    requires gates != [] && gates[0].forwards
    ensures Reached(gates) == [gates[0]] + Reached(gates[1..])
    ensures FirstVeto(gates) == |gates| <==> FirstVeto(gates[1..]) == |gates[1..]|
  {
  }

  lemma NestCons(g: Gate, inner: seq<Gate>, middle: seq<Step>)
    ensures Entering([g] + inner) + middle + Leaving([g] + inner) ==
            [Enter(g.name)] + (Entering(inner) + middle + Leaving(inner)) + [Leave(g.name)]
  {
    assert Entering([g] + inner) == [Enter(g.name)] + Entering(inner);
    assert Leaving([g] + inner) == Leaving(inner) + [Leave(g.name)];
  }

  /** Hooks are entered from hook 0 inwards and left in reverse; the operation runs in the
      middle exactly when no hook vetoes, and nothing beyond the first veto is entered. */
  lemma {:induction false} HooksNest(gates: seq<Gate>)
    ensures Steps(Chain(gates)) ==
            Entering(Reached(gates)) + (if FirstVeto(gates) == |gates| then [Run] else []) + Leaving(Reached(gates))
  {
    if gates == [] {
    } else if gates[0].forwards {
      HooksNest(gates[1..]);
      ReachedCons(gates);
      var middle := if FirstVeto(gates) == |gates| then [Run] else [];
      NestCons(gates[0], Reached(gates[1..]), middle);
      hide Entering, Leaving, Reached, FirstVeto;
      assert Steps(Chain(gates)) == [Enter(gates[0].name)] + Steps(Chain(gates[1..])) + [Leave(gates[0].name)];
    } else {
      assert Reached(gates) == [gates[0]];
    }
  }
}
