/** Bulk creation of organisation agents: each builder's innermost mutator runs the next
    builder's hook chain, and the last one runs the batch. */
module BulkCreate {
  import opened Seqs
  import opened HookChain

  // ---------------------------------------------------------------- one builder

  datatype Value = Text(s: string) | Flag(b: bool) | Time(t: int)

  datatype Fields = Fields(
    id: Option<string>, name: Option<string>, url: Option<string>, credentialName: Option<string>,
    authType: Option<string>, enabled: Option<bool>, headers: Option<string>, timeout: Option<string>,
    cachedCard: Option<string>, cachedSkills: Option<string>, createdBy: Option<string>,
    createdAt: Option<int>, updatedAt: Option<int>)

  datatype Dialect = Postgres | MySQL | SQLite

  /** Package-level defaults and validators, and the driver's dialect. */
  datatype Env = Env(
    authType: string, enabled: bool, headers: string,
    nameValid: string -> bool, urlValid: string -> bool, dialect: Dialect)

  /** What the default functions of one builder return: a new identifier and two clock readings. */
  datatype Drawn = Drawn(id: string, createdAt: int, updatedAt: int)

  function Or<T>(o: Option<T>, d: T): Option<T> { if o.Some? then o else Some(d) }

  function Defaults(f: Fields, env: Env, drawn: Drawn): Fields {
    f.(authType := Or(f.authType, env.authType), enabled := Or(f.enabled, env.enabled),
       headers := Or(f.headers, env.headers), createdAt := Or(f.createdAt, drawn.createdAt),
       updatedAt := Or(f.updatedAt, drawn.updatedAt), id := Or(f.id, drawn.id))
  }

  datatype Error = MissingField(field: string) | InvalidField(field: string) | Hook(message: string) | Batch(attempt: nat)

  function Check(f: Fields, env: Env): Option<Error> {
    if f.name.None? then Some(MissingField("name"))
    else if !env.nameValid(f.name.value) then Some(InvalidField("name"))
    else if f.url.None? then Some(MissingField("url"))
    else if !env.urlValid(f.url.value) then Some(InvalidField("url"))
    else if f.authType.None? then Some(MissingField("auth_type"))
    else if f.enabled.None? then Some(MissingField("enabled"))
    else if f.createdBy.None? then Some(MissingField("created_by"))
    else if env.dialect != Postgres && f.createdAt.None? then Some(MissingField("created_at"))
    else if env.dialect != Postgres && f.updatedAt.None? then Some(MissingField("updated_at"))
    else None
  }

  /** After defaults a check can only fail on the name, the URL or the creator. */
  lemma WhatDefaultsLeaveToCheck(f: Fields, env: Env, drawn: Drawn)
    ensures Check(Defaults(f, env, drawn), env).None? <==>
      f.name.Some? && env.nameValid(f.name.value) && f.url.Some? && env.urlValid(f.url.value) && f.createdBy.Some?
  {
  }

  datatype Field =
    | Name | Url | CredentialName | AuthType | Enabled | Headers | Timeout
    | CachedCard | CachedSkills | CreatedBy | CreatedAt | UpdatedAt

  datatype Spec = Spec(id: Option<string>, columns: map<Field, Value>)

  function TextOf(o: Option<string>): Option<Value> { if o.Some? then Some(Text(o.value)) else None }
  function FlagOf(o: Option<bool>): Option<Value> { if o.Some? then Some(Flag(o.value)) else None }
  function TimeOf(o: Option<int>): Option<Value> { if o.Some? then Some(Time(o.value)) else None }

  /** The field's value as a column value. */
  function FieldValue(f: Fields, field: Field): Option<Value> {
    match field
    case Name => TextOf(f.name)
    case Url => TextOf(f.url)
    case CredentialName => TextOf(f.credentialName)
    case AuthType => TextOf(f.authType)
    case Enabled => FlagOf(f.enabled)
    case Headers => TextOf(f.headers)
    case Timeout => TextOf(f.timeout)
    case CachedCard => TextOf(f.cachedCard)
    case CachedSkills => TextOf(f.cachedSkills)
    case CreatedBy => TextOf(f.createdBy)
    case CreatedAt => TimeOf(f.createdAt)
    case UpdatedAt => TimeOf(f.updatedAt)
  }

  type Columns = map<Field, Value>

  /** One guarded assignment of a column. */
  function SetField(columns: Columns, field: Field, value: Option<Value>): Columns {
    if value.Some? then columns[field := value.value] else columns
  }

  /** The first half of the assignments, in source order. */
  function SetConnection(f: Fields): Columns {
    var c1 := SetField(map[], Name, TextOf(f.name));
    var c2 := SetField(c1, Url, TextOf(f.url));
    var c3 := SetField(c2, CredentialName, TextOf(f.credentialName));
    var c4 := SetField(c3, AuthType, TextOf(f.authType));
    var c5 := SetField(c4, Enabled, FlagOf(f.enabled));
    SetField(c5, Headers, TextOf(f.headers))
  }

  /** The second half. */
  function SetRest(columns: Columns, f: Fields): Columns {
    var c1 := SetField(columns, Timeout, TextOf(f.timeout));
    var c2 := SetField(c1, CachedCard, TextOf(f.cachedCard));
    var c3 := SetField(c2, CachedSkills, TextOf(f.cachedSkills));
    var c4 := SetField(c3, CreatedBy, TextOf(f.createdBy));
    var c5 := SetField(c4, CreatedAt, TimeOf(f.createdAt));
    SetField(c5, UpdatedAt, TimeOf(f.updatedAt))
  }

  /** The assignments one after the other, and the identifier beside them. */
  function CreateSpec(f: Fields): Spec { Spec(f.id, SetRest(SetConnection(f), f)) }

  // ---------------------------------------------------------------- the chain of builders

  /** How a hook answers after calling the next mutator some number of times. */
  datatype Answer = LastResult | Success | Failure(message: string)

  datatype BuilderHook = BuilderHook(edit: Fields -> Fields, calls: nat, answer: Answer)

  datatype Mutation = Mutation(fields: Fields, id: Option<string>, done: bool)

  datatype Outcome = Ok | Err(error: Error)

  /** What the closures share: the mutations, the node and spec slots, and every batch the
      database was asked to create. A node is what its spec carries. */
  datatype State = State(
    muts: seq<Mutation>,
    nodes: seq<Option<Spec>>,
    specs: seq<Option<Spec>>,
    batches: seq<seq<Option<Spec>>>)
  {
    predicate Sized(n: nat) { |muts| == n && |nodes| == n && |specs| == n }
  }

  /** The builders' chains and the database's answers to successive batches. */
  datatype Bulk = Bulk(chains: seq<Mutator<BuilderHook>>, env: Env, batchOk: nat -> bool)

  /** Builder i's own mutator: check, spec, next builder or batch, then mark done. */
  function Innermost(b: Bulk, i: nat, st: State): (r: (State, Outcome))
    requires i < |b.chains| && st.Sized(|b.chains|)
    ensures r.0.Sized(|b.chains|)
    decreases |b.chains| - i, Mutator<BuilderHook>.Exec, 0, 0
  {
    var failed := Check(st.muts[i].fields, b.env);
    if failed.Some? then (st, Err(failed.value)) else
    var spec := CreateSpec(st.muts[i].fields);
    var st1 := st.(nodes := st.nodes[i := Some(spec)], specs := st.specs[i := Some(spec)]);
    var (st2, result) :=
      if i + 1 < |b.chains| then RunChain(b, i + 1, b.chains[i + 1], st1)
      else RunBatch(b, st1);
    if result.Err? then (st2, result)
    else (st2.(muts := st2.muts[i := st2.muts[i].(id := NodeId(st2.nodes[i]), done := true)]), Ok)
  }

  function NodeId(node: Option<Spec>): Option<string> {
    if node.Some? then node.value.id else None
  }

  function RunBatch(b: Bulk, st: State): (r: (State, Outcome))
    ensures r.0.muts == st.muts && r.0.nodes == st.nodes && r.0.specs == st.specs
  {
    (st.(batches := st.batches + [st.specs]),
     if b.batchOk(|st.batches|) then Ok else Err(Batch(|st.batches|)))
  }

  function RunChain(b: Bulk, i: nat, m: Mutator<BuilderHook>, st: State): (r: (State, Outcome))
    requires i < |b.chains| && st.Sized(|b.chains|)
    ensures r.0.Sized(|b.chains|)
    decreases |b.chains| - i, m, 1, 0
  {
    match m
    case Exec => Innermost(b, i, st)
    case Wrapped(h, next) =>
      var st1 := st.(muts := st.muts[i := st.muts[i].(fields := h.edit(st.muts[i].fields))]);
      var (st2, last) := RunTimes(b, i, next, h.calls, st1);
      (st2, match h.answer case LastResult => last case Success => Ok case Failure(e) => Err(Hook(e)))
  }

  function RunTimes(b: Bulk, i: nat, m: Mutator<BuilderHook>, k: nat, st: State): (r: (State, Outcome))
    requires i < |b.chains| && st.Sized(|b.chains|)
    ensures r.0.Sized(|b.chains|)
    decreases |b.chains| - i, m, 2, k
  {
    if k == 0 then (st, Ok)
    else RunChain(b, i, m, RunTimes(b, i, m, k - 1, st).0)
  }

  // ---------------------------------------------------------------- the bulk builder

  datatype Builder = Builder(fields: Fields, hooks: seq<BuilderHook>, drawn: Drawn)

  datatype SaveResult = Saved(nodes: seq<Option<Spec>>) | SaveFailed(error: Error)

  class OrgA2AAgentCreateBulk {
    const env: Env
    const batchOk: nat -> bool
    var chains: seq<Mutator<BuilderHook>>
    var muts: seq<Mutation>
    var nodes: seq<Option<Spec>>
    var specs: seq<Option<Spec>>
    var batches: seq<seq<Option<Spec>>>

    constructor (env: Env, batchOk: nat -> bool)
      ensures this.env == env && this.batchOk == batchOk && batches == []
    {
      this.env, this.batchOk := env, batchOk;
      chains, muts, nodes, specs, batches := [], [], [], [], [];
    }

    ghost function Value(): State
      reads this
    {
      State(muts, nodes, specs, batches)
    }

    ghost function Config(): Bulk
      reads this
    {
      Bulk(chains, env, batchOk)
    }

    method MutateInnermost(i: nat) returns (r: Outcome)
      requires i < |chains| && Value().Sized(|chains|)
      modifies this`muts, this`nodes, this`specs, this`batches
      ensures (Value(), r) == Innermost(Config(), i, old(Value()))
      decreases |chains| - i, Mutator<BuilderHook>.Exec, 0, 0
    {
      var failed := Check(muts[i].fields, env);
      if failed.Some? {
        return Err(failed.value);
      }
      var spec := CreateSpec(muts[i].fields);
      nodes, specs := nodes[i := Some(spec)], specs[i := Some(spec)];
      if i < |chains| - 1 {
        r := Mutate(i + 1, chains[i + 1]);
      } else {
        r := if batchOk(|batches|) then Ok else Err(Batch(|batches|));
        batches := batches + [specs];
      }
      if r.Err? {
        return;
      }
      muts := muts[i := muts[i].(id := NodeId(nodes[i]), done := true)];
    }

    /** Invokes builder i's mutator chain. */
    method Mutate(i: nat, m: Mutator<BuilderHook>) returns (r: Outcome)
      requires i < |chains| && Value().Sized(|chains|)
      modifies this`muts, this`nodes, this`specs, this`batches
      ensures (Value(), r) == RunChain(Config(), i, m, old(Value()))
      decreases |chains| - i, m, 1, 0
    {
      match m {
        case Exec =>
          r := MutateInnermost(i);
        case Wrapped(h, next) =>
          muts := muts[i := muts[i].(fields := h.edit(muts[i].fields))];
          ghost var start := Value();
          r := Ok;
          var k := 0;
          while k < h.calls
            invariant 0 <= k <= h.calls && Value().Sized(|chains|)
            invariant (Value(), r) == RunTimes(Config(), i, next, k, start)
          {
            r := Mutate(i, next);
            k := k + 1;
          }
          match h.answer {
            case LastResult =>
            case Success => r := Ok;
            case Failure(e) => r := Err(Hook(e));
          }
      }
    }

    method Save(pending: Option<Error>, builders: seq<Builder>) returns (r: SaveResult)
      modifies this
      ensures pending.Some? ==> r == SaveFailed(pending.value) && Value() == old(Value())
      ensures pending.None? && builders == [] ==> r == Saved([]) && batches == old(batches)
      ensures pending.None? && builders != [] ==>
        var (st, result) := RunChain(BulkOf(builders, env, batchOk), 0, Chain(builders[0].hooks),
                                     Prepared(builders, env, old(batches)));
        Value() == st && r == (if result.Ok? then Saved(st.nodes) else SaveFailed(result.error))
    {
      if pending.Some? {
        return SaveFailed(pending.value);
      }
      specs := seq(|builders|, _ => None);
      nodes := seq(|builders|, _ => None);
      chains, muts := [], [];
      for i := 0 to |builders|
        invariant |muts| == |chains| == i
        invariant nodes == specs == seq(|builders|, _ => None) && batches == old(batches)
        invariant forall j :: 0 <= j < i ==> muts[j] == Fresh(builders[j], env) && chains[j] == Chain(builders[j].hooks)
      {
        muts := muts + [Mutation(Defaults(builders[i].fields, env, builders[i].drawn), None, false)];
        var mut := BuildChain(builders[i].hooks);
        chains := chains + [mut];
      }
      if |builders| == 0 {
        return Saved([]);
      }
      assert chains == BulkOf(builders, env, batchOk).chains;
      assert Value() == Prepared(builders, env, old(batches));
      var result := Mutate(0, chains[0]);
      r := if result.Ok? then Saved(nodes) else SaveFailed(result.error);
    }
  }

  function Fresh(bl: Builder, env: Env): Mutation {
    Mutation(Defaults(bl.fields, env, bl.drawn), None, false)
  }

  function BulkOf(builders: seq<Builder>, env: Env, batchOk: nat -> bool): Bulk {
    Bulk(seq(|builders|, i requires 0 <= i < |builders| => Chain(builders[i].hooks)), env, batchOk)
  }

  /** The state right after defaults, before any mutator runs. */
  function Prepared(builders: seq<Builder>, env: Env, batches: seq<seq<Option<Spec>>>): (st: State)
    ensures st.Sized(|builders|)
  {
    State(seq(|builders|, i requires 0 <= i < |builders| => Fresh(builders[i], env)),
          seq(|builders|, _ => None), seq(|builders|, _ => None), batches)
  }
}
