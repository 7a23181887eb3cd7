/** All-or-nothing bulk creation and its exact condition, how often the batch runs, and which
    hooks can hide a missing batch or lose a created one. */
module BulkCreateProperties {
  import opened Seqs
  import opened HookChain
  import opened BulkCreate

  // ---------------------------------------------------------------- the spec of one row

  function Column(columns: Columns, field: Field): Option<Value> {
    if field in columns then Some(columns[field]) else None
  }

  predicate InFirstHalf(field: Field) {
    field.Name? || field.Url? || field.CredentialName? || field.AuthType? || field.Enabled? || field.Headers?
  }

  lemma ColumnAfterSet(columns: Columns, g: Field, value: Option<Value>, field: Field)
    ensures Column(SetField(columns, g, value), field) ==
      if field == g && value.Some? then value else Column(columns, field)
  {
  }

  lemma FirstHalf(f: Fields, field: Field)
    ensures Column(SetConnection(f), field) == if InFirstHalf(field) then FieldValue(f, field) else None
  {
    var c1 := SetField(map[], Name, TextOf(f.name));
    var c2 := SetField(c1, Url, TextOf(f.url));
    var c3 := SetField(c2, CredentialName, TextOf(f.credentialName));
    var c4 := SetField(c3, AuthType, TextOf(f.authType));
    var c5 := SetField(c4, Enabled, FlagOf(f.enabled));
    assert Column(map[], field) == None;
    ColumnAfterSet(map[], Name, TextOf(f.name), field);
    ColumnAfterSet(c1, Url, TextOf(f.url), field);
    ColumnAfterSet(c2, CredentialName, TextOf(f.credentialName), field);
    ColumnAfterSet(c3, AuthType, TextOf(f.authType), field);
    ColumnAfterSet(c4, Enabled, FlagOf(f.enabled), field);
    ColumnAfterSet(c5, Headers, TextOf(f.headers), field);
    hide SetField, Column;
  }

  lemma SecondHalf(columns: Columns, f: Fields, field: Field)
    requires !InFirstHalf(field) ==> Column(columns, field) == None
    ensures Column(SetRest(columns, f), field) == if InFirstHalf(field) then Column(columns, field) else FieldValue(f, field)
  {
    var c1 := SetField(columns, Timeout, TextOf(f.timeout));
    var c2 := SetField(c1, CachedCard, TextOf(f.cachedCard));
    var c3 := SetField(c2, CachedSkills, TextOf(f.cachedSkills));
    var c4 := SetField(c3, CreatedBy, TextOf(f.createdBy));
    var c5 := SetField(c4, CreatedAt, TimeOf(f.createdAt));
    ColumnAfterSet(columns, Timeout, TextOf(f.timeout), field);
    ColumnAfterSet(c1, CachedCard, TextOf(f.cachedCard), field);
    ColumnAfterSet(c2, CachedSkills, TextOf(f.cachedSkills), field);
    ColumnAfterSet(c3, CreatedBy, TextOf(f.createdBy), field);
    ColumnAfterSet(c4, CreatedAt, TimeOf(f.createdAt), field);
    ColumnAfterSet(c5, UpdatedAt, TimeOf(f.updatedAt), field);
    hide SetField, Column;
  }

  /** After all assignments each column holds its own field's value, and only set fields have one. */
  lemma SpecIsLossless(f: Fields, field: Field)
    ensures CreateSpec(f).id == f.id && Column(CreateSpec(f).columns, field) == FieldValue(f, field)
  {
    FirstHalf(f, field);
    SecondHalf(SetConnection(f), f, field);
    hide SetConnection, SetRest, FieldValue, Column;
  }

  lemma SpecDeterminesFields(f: Fields, g: Fields)
    requires CreateSpec(f) == CreateSpec(g)
    ensures f == g
  {
    hide CreateSpec, FieldValue, Column;
    forall field ensures FieldValue(f, field) == FieldValue(g, field) {
      SpecIsLossless(f, field);
      SpecIsLossless(g, field);
    }
    SpecIsLossless(f, Name);
    SpecIsLossless(g, Name);
    FirstFieldsAgree(f, g);
    LastFieldsAgree(f, g);
  }

  lemma FirstFieldsAgree(f: Fields, g: Fields)
    requires forall field :: FieldValue(f, field) == FieldValue(g, field)
    ensures f.name == g.name && f.url == g.url && f.credentialName == g.credentialName
    ensures f.authType == g.authType && f.enabled == g.enabled && f.headers == g.headers
  {
    assert FieldValue(f, Name) == FieldValue(g, Name) && FieldValue(f, Url) == FieldValue(g, Url);
    assert FieldValue(f, CredentialName) == FieldValue(g, CredentialName);
    assert FieldValue(f, AuthType) == FieldValue(g, AuthType) && FieldValue(f, Enabled) == FieldValue(g, Enabled);
    assert FieldValue(f, Headers) == FieldValue(g, Headers);
  }

  lemma LastFieldsAgree(f: Fields, g: Fields)
    requires forall field :: FieldValue(f, field) == FieldValue(g, field)
    ensures f.timeout == g.timeout && f.cachedCard == g.cachedCard && f.cachedSkills == g.cachedSkills
    ensures f.createdBy == g.createdBy && f.createdAt == g.createdAt && f.updatedAt == g.updatedAt
  {
    assert FieldValue(f, Timeout) == FieldValue(g, Timeout) && FieldValue(f, CachedCard) == FieldValue(g, CachedCard);
    assert FieldValue(f, CachedSkills) == FieldValue(g, CachedSkills);
    assert FieldValue(f, CreatedBy) == FieldValue(g, CreatedBy);
    assert FieldValue(f, CreatedAt) == FieldValue(g, CreatedAt) && FieldValue(f, UpdatedAt) == FieldValue(g, UpdatedAt);
  }

  // ---------------------------------------------------------------- defaults

  /** The default of a field that has one. */
  function DefaultOf(env: Env, drawn: Drawn, field: Field): Option<Value> {
    match field
    case AuthType => Some(Text(env.authType))
    case Enabled => Some(Flag(env.enabled))
    case Headers => Some(Text(env.headers))
    case CreatedAt => Some(Time(drawn.createdAt))
    case UpdatedAt => Some(Time(drawn.updatedAt))
    case _ => None
  }

  /** A default fills an unset field and nothing else: what the caller set stays. */
  lemma DefaultsFillTheGaps(f: Fields, env: Env, drawn: Drawn, field: Field)
    ensures var g := Defaults(f, env, drawn);
      && FieldValue(g, field) == (if FieldValue(f, field).Some? then FieldValue(f, field) else DefaultOf(env, drawn, field))
      && g.id == (if f.id.Some? then f.id else Some(drawn.id))
  {
  }

  // ---------------------------------------------------------------- what a check reports

  function ColumnName(field: Field): string {
    match field
    case Name => "name"
    case Url => "url"
    case CredentialName => "credential_name"
    case AuthType => "auth_type"
    case Enabled => "enabled"
    case Headers => "headers"
    case Timeout => "timeout"
    case CachedCard => "cached_card"
    case CachedSkills => "cached_skills"
    case CreatedBy => "created_by"
    case CreatedAt => "created_at"
    case UpdatedAt => "updated_at"
  }

  /** The required columns in the order they are looked at; Postgres fills in the times itself. */
  function Required(env: Env): seq<Field> {
    [Name, Url, AuthType, Enabled, CreatedBy] +
    (match env.dialect case Postgres => [] case MySQL => [CreatedAt, UpdatedAt] case SQLite => [CreatedAt, UpdatedAt])
  }

  predicate Satisfied(f: Fields, env: Env, field: Field) {
    match field
    case Name => f.name.Some? && env.nameValid(f.name.value)
    case Url => f.url.Some? && env.urlValid(f.url.value)
    case _ => FieldValue(f, field).Some?
  }

  /** The k-th required column is the first that is missing or rejected. */
  ghost predicate FirstUnsatisfied(f: Fields, env: Env, k: nat) {
    && k < |Required(env)| && !Satisfied(f, env, Required(env)[k])
    && forall j :: 0 <= j < k ==> Satisfied(f, env, Required(env)[j])
  }

  /** A check passes exactly when every required column is satisfied, and otherwise reports
      the first that is not: as missing when it is unset, as invalid when its validator objects. */
  lemma CheckReportsTheFirst(f: Fields, env: Env, k: nat)
    ensures Check(f, env).None? <==> forall j :: 0 <= j < |Required(env)| ==> Satisfied(f, env, Required(env)[j])
    ensures FirstUnsatisfied(f, env, k) ==>
      var field := Required(env)[k];
      Check(f, env) ==
      Some(if FieldValue(f, field).None? then MissingField(ColumnName(field)) else InvalidField(ColumnName(field)))
  {
    assert Required(env)[0] == Name && Required(env)[1] == Url && Required(env)[2] == AuthType;
    assert Required(env)[3] == Enabled && Required(env)[4] == CreatedBy;
    assert env.dialect != Postgres ==> Required(env)[5] == CreatedAt && Required(env)[6] == UpdatedAt;
  }

  // ---------------------------------------------------------------- well-behaved hooks

  /** Every hook calls next once and returns its result. */
  predicate Forwards(m: Mutator<BuilderHook>) {
    match m
    case Exec => true
    case Wrapped(h, next) => h.calls == 1 && h.answer.LastResult? && Forwards(next)
  }

  ghost predicate AllForward(b: Bulk) {
    forall j :: 0 <= j < |b.chains| ==> Forwards(b.chains[j])
  }

  /** Field edits in hook order, hook 0 first. */
  function Edited(m: Mutator<BuilderHook>, f: Fields): Fields {
    match m
    case Exec => f
    case Wrapped(h, next) => Edited(next, h.edit(f))
  }

  function WithFields(st: State, i: nat, f: Fields): State
    requires i < |st.muts|
  {
    st.(muts := st.muts[i := st.muts[i].(fields := f)])
  }

  lemma {:induction false} ForwardingChain(b: Bulk, i: nat, m: Mutator<BuilderHook>, st: State)
    requires i < |b.chains| && st.Sized(|b.chains|) && Forwards(m)
    ensures RunChain(b, i, m, st) == Innermost(b, i, WithFields(st, i, Edited(m, st.muts[i].fields)))
    decreases m
  {
    match m
    case Exec =>
      assert st.muts[i := st.muts[i]] == st.muts;
    case Wrapped(h, next) =>
      var st1 := WithFields(st, i, h.edit(st.muts[i].fields));
      ForwardingChain(b, i, next, st1);
      assert RunTimes(b, i, next, 0, st1).0 == st1;
      assert RunTimes(b, i, next, 1, st1) == RunChain(b, i, next, st1);
      assert WithFields(st1, i, Edited(next, st1.muts[i].fields)) == WithFields(st, i, Edited(m, st.muts[i].fields));
  }

  /** The fields builder j finally checks and writes. */
  function FinalFields(b: Bulk, st: State, j: nat): Fields
    requires j < |b.chains| && st.Sized(|b.chains|)
  {
    Edited(b.chains[j], st.muts[j].fields)
  }

  /** The first builder from i on whose check fails. */
  function FirstBad(b: Bulk, st: State, i: nat): (k: nat)
    requires i <= |b.chains| && st.Sized(|b.chains|)
    ensures i <= k <= |b.chains|
    ensures k < |b.chains| ==> Check(FinalFields(b, st, k), b.env).Some?
    ensures forall j :: i <= j < k ==> Check(FinalFields(b, st, j), b.env).None?
    decreases |b.chains| - i
  {
    if i == |b.chains| || Check(FinalFields(b, st, i), b.env).Some? then i else FirstBad(b, st, i + 1)
  }

  /** The specs in builder order, from i on as finally edited. */
  function FullSpecs(b: Bulk, st: State, slots: seq<Option<Spec>>, i: nat): seq<Option<Spec>>
    requires i <= |b.chains| && st.Sized(|b.chains|) && |slots| == |b.chains|
  {
    slots[..i] + seq(|b.chains| - i, d requires 0 <= d < |b.chains| - i => Some(CreateSpec(FinalFields(b, st, i + d))))
  }

  ghost predicate SameMarks(before: seq<Mutation>, after: seq<Mutation>) {
    |before| == |after| &&
    forall j :: 0 <= j < |before| ==> after[j].done == before[j].done && after[j].id == before[j].id
  }

  /** What running the builders from i on amounts to. */
  ghost predicate Cascaded(b: Bulk, i: nat, st: State, after: State, r: Outcome)
    requires i < |b.chains| && st.Sized(|b.chains|) && after.Sized(|b.chains|)
  {
    var k := FirstBad(b, st, i);
    && after.muts[..i] == st.muts[..i]
    && (k < |b.chains| ==>
          r == Err(Check(FinalFields(b, st, k), b.env).value) && after.batches == st.batches &&
          SameMarks(st.muts, after.muts))
    && (k == |b.chains| ==>
          && after.specs == FullSpecs(b, st, st.specs, i) && after.nodes == FullSpecs(b, st, st.nodes, i)
          && after.batches == st.batches + [after.specs]
          && r == (if b.batchOk(|st.batches|) then Ok else Err(Batch(|st.batches|)))
          && (r.Err? ==> SameMarks(st.muts, after.muts))
          && (r.Ok? ==> forall j :: i <= j < |b.chains| ==>
                after.muts[j] == Mutation(FinalFields(b, st, j), FinalFields(b, st, j).id, true)))
  }

  /** The state builder i hands to builder i + 1. */
  function HandedOn(b: Bulk, i: nat, st: State): (st1: State)
    requires i < |b.chains| && st.Sized(|b.chains|)
    ensures st1.Sized(|b.chains|)
  {
    var f := FinalFields(b, st, i);
    WithFields(st, i, f).(nodes := st.nodes[i := Some(CreateSpec(f))], specs := st.specs[i := Some(CreateSpec(f))])
  }

  lemma {:induction false} HandedOnSame(b: Bulk, i: nat, st: State)
    requires i < |b.chains| && st.Sized(|b.chains|)
    ensures var st1 := HandedOn(b, i, st);
      && (forall j :: i < j < |b.chains| ==> FinalFields(b, st1, j) == FinalFields(b, st, j))
      && FullSpecs(b, st1, st1.specs, i + 1) == FullSpecs(b, st, st.specs, i)
      && FullSpecs(b, st1, st1.nodes, i + 1) == FullSpecs(b, st, st.nodes, i)
      && SameMarks(st.muts, st1.muts) && st1.muts[..i] == st.muts[..i] && st1.batches == st.batches
  {
    hide CreateSpec, Edited;
  }

  lemma {:induction false} FirstBadDependsOnFields(b: Bulk, st: State, st1: State, i: nat)
    requires i <= |b.chains| && st.Sized(|b.chains|) && st1.Sized(|b.chains|)
    requires forall j :: i <= j < |b.chains| ==> FinalFields(b, st1, j) == FinalFields(b, st, j)
    ensures FirstBad(b, st1, i) == FirstBad(b, st, i)
    decreases |b.chains| - i
  {
    if i < |b.chains| {
      FirstBadDependsOnFields(b, st, st1, i + 1);
    }
  }

  lemma {:induction false} ForwardingCascade(b: Bulk, i: nat, st: State)
    requires i < |b.chains| && st.Sized(|b.chains|) && AllForward(b)
    ensures var (after, r) := RunChain(b, i, b.chains[i], st); Cascaded(b, i, st, after, r)
    decreases |b.chains| - i
  {
    ForwardingChain(b, i, b.chains[i], st);
    var f := FinalFields(b, st, i);
    if Check(f, b.env).None? {
      var st1 := HandedOn(b, i, st);
      HandedOnSame(b, i, st);
      FirstBadDependsOnFields(b, st, st1, i + 1);
      if i + 1 < |b.chains| {
        ForwardingCascade(b, i + 1, st1);
        var (mid, r) := RunChain(b, i + 1, b.chains[i + 1], st1);
        InnermostContinues(b, i, st, mid, r);
        CascadeStep(b, i, st, st1, mid, r);
      } else {
        LastBuilder(b, i, st, st1);
      }
    }
  }

  function Marked(st: State, i: nat, r: Outcome): State
    requires i < |st.muts| && i < |st.nodes|
  {
    if r.Err? then st else st.(muts := st.muts[i := st.muts[i].(id := NodeId(st.nodes[i]), done := true)])
  }

  lemma InnermostContinues(b: Bulk, i: nat, st: State, mid: State, r: Outcome)
    requires i + 1 < |b.chains| && st.Sized(|b.chains|)
    requires Check(FinalFields(b, st, i), b.env).None?
    requires (mid, r) == RunChain(b, i + 1, b.chains[i + 1], HandedOn(b, i, st))
    ensures Innermost(b, i, WithFields(st, i, FinalFields(b, st, i))) == (Marked(mid, i, r), r)
  {
    hide RunChain, FinalFields, CreateSpec, Check;
  }

  lemma CascadeStep(b: Bulk, i: nat, st: State, st1: State, mid: State, r: Outcome)
    requires i + 1 < |b.chains| && st.Sized(|b.chains|) && st1 == HandedOn(b, i, st) && mid.Sized(|b.chains|)
    requires Check(FinalFields(b, st, i), b.env).None?
    requires FirstBad(b, st1, i + 1) == FirstBad(b, st, i + 1)
    requires Cascaded(b, i + 1, st1, mid, r)
    ensures Cascaded(b, i, st, Marked(mid, i, r), r)
  {
    assert FirstBad(b, st, i) == FirstBad(b, st, i + 1);
    HandedOnSame(b, i, st);
    assert st1.muts[i].fields == FinalFields(b, st, i);
    assert mid.muts[i] == mid.muts[..i + 1][i] == st1.muts[..i + 1][i] == st1.muts[i];
    assert mid.muts[..i] == mid.muts[..i + 1][..i] && st1.muts[..i] == st1.muts[..i + 1][..i];
    if r.Ok? {
      assert mid.nodes[i] == FullSpecs(b, st, st.nodes, i)[i] == Some(CreateSpec(FinalFields(b, st, i + 0)));
    }
    hide FirstBad, FullSpecs, Check, CreateSpec, FinalFields, HandedOn;
  }

  lemma LastBuilder(b: Bulk, i: nat, st: State, st1: State)
    requires i + 1 == |b.chains| && st.Sized(|b.chains|) && st1 == HandedOn(b, i, st)
    requires Check(FinalFields(b, st, i), b.env).None?
    ensures var (after, r) := Innermost(b, i, WithFields(st, i, FinalFields(b, st, i))); Cascaded(b, i, st, after, r)
  {
    var spec := Some(CreateSpec(FinalFields(b, st, i)));
    assert st.specs[i := spec] == FullSpecs(b, st, st.specs, i);
    assert st.nodes[i := spec] == FullSpecs(b, st, st.nodes, i);
  }

  /** Save with forwarding hooks is all-or-nothing. The batch runs at most once, only when
      every check passed, with the specs in builder order; Save succeeds exactly when every
      check and the batch do; and no mutation is marked done unless all are. */
  lemma SaveIsAllOrNothing(b: Bulk, st: State)
    requires |b.chains| > 0 && st.Sized(|b.chains|) && AllForward(b)
    requires forall j :: 0 <= j < |b.chains| ==> !st.muts[j].done
    ensures var (after, r) := RunChain(b, 0, b.chains[0], st);
            var allPass := forall j :: 0 <= j < |b.chains| ==> Check(FinalFields(b, st, j), b.env).None?;
            var specs := seq(|b.chains|, j requires 0 <= j < |b.chains| => Some(CreateSpec(FinalFields(b, st, j))));
      && after.batches == st.batches + (if allPass then [specs] else [])
      && (r.Ok? <==> allPass && b.batchOk(|st.batches|))
      && (forall j :: 0 <= j < |b.chains| ==> (after.muts[j].done <==> r.Ok?))
      && (r.Ok? ==> after.nodes == specs)
  {
    ForwardingCascade(b, 0, st);
    var k := FirstBad(b, st, 0);
    var specs := seq(|b.chains|, j requires 0 <= j < |b.chains| => Some(CreateSpec(FinalFields(b, st, j))));
    assert FullSpecs(b, st, st.specs, 0) == specs == FullSpecs(b, st, st.nodes, 0);
    hide RunChain, FinalFields, CreateSpec, Check, FullSpecs;
  }

  // ---------------------------------------------------------------- what is saved

  /** No hook of the chain changes the field. */
  ghost predicate LeavesField(m: Mutator<BuilderHook>, field: Field) {
    match m
    case Exec => true
    case Wrapped(h, next) =>
      (forall f :: FieldValue(h.edit(f), field) == FieldValue(f, field)) && LeavesField(next, field)
  }

  ghost predicate LeavesId(m: Mutator<BuilderHook>) {
    match m
    case Exec => true
    case Wrapped(h, next) => (forall f :: h.edit(f).id == f.id) && LeavesId(next)
  }

  lemma {:induction false} EditedKeeps(m: Mutator<BuilderHook>, f: Fields, field: Field)
    ensures LeavesField(m, field) ==> FieldValue(Edited(m, f), field) == FieldValue(f, field)
    ensures LeavesId(m) ==> Edited(m, f).id == f.id
  {
    match m
    case Exec =>
    case Wrapped(h, next) => EditedKeeps(next, h.edit(f), field);
  }

  /** The column value the caller is promised: what was set, or else the default. */
  function Promised(bl: Builder, env: Env, field: Field): Option<Value> {
    if FieldValue(bl.fields, field).Some? then FieldValue(bl.fields, field) else DefaultOf(env, bl.drawn, field)
  }

  lemma PreparedFields(builders: seq<Builder>, env: Env, batchOk: nat -> bool, batches: seq<seq<Option<Spec>>>, j: nat)
    requires j < |builders|
    ensures var b, st0 := BulkOf(builders, env, batchOk), Prepared(builders, env, batches);
      && FinalFields(b, st0, j) == Edited(Chain(builders[j].hooks), Defaults(builders[j].fields, env, builders[j].drawn))
      && FullSpecs(b, st0, st0.nodes, 0) == FullSpecs(b, st0, st0.specs, 0)
      && |FullSpecs(b, st0, st0.nodes, 0)| == |builders|
      && FullSpecs(b, st0, st0.nodes, 0)[j] == Some(CreateSpec(FinalFields(b, st0, j)))
  {
    var b, st0 := BulkOf(builders, env, batchOk), Prepared(builders, env, batches);
    assert FullSpecs(b, st0, st0.nodes, 0)[j] == Some(CreateSpec(FinalFields(b, st0, 0 + j)));
    hide CreateSpec, Defaults, Edited;
  }

  /** A successful save with forwarding hooks: node j carries, in every column that builder j's
      hooks leave alone, what builder j set or else the column's default, and so for the
      identifier, which the marked mutation carries too. */
  lemma SavedNodesHoldWhatWasSet(builders: seq<Builder>, env: Env, batchOk: nat -> bool,
                                 batches: seq<seq<Option<Spec>>>, j: nat, field: Field)
    requires j < |builders| && AllForward(BulkOf(builders, env, batchOk))
    ensures var (st, result) := RunChain(BulkOf(builders, env, batchOk), 0, Chain(builders[0].hooks),
                                         Prepared(builders, env, batches));
            result.Ok? ==>
              && st.nodes[j].Some? && st.batches == batches + [st.nodes]
              && (LeavesField(Chain(builders[j].hooks), field) ==>
                    Column(st.nodes[j].value.columns, field) == Promised(builders[j], env, field))
              && (LeavesId(Chain(builders[j].hooks)) ==>
                    var given := builders[j].fields.id;
                    st.nodes[j].value.id == st.muts[j].id == (if given.Some? then given else Some(builders[j].drawn.id)))
  {
    var b, st0 := BulkOf(builders, env, batchOk), Prepared(builders, env, batches);
    ForwardingCascade(b, 0, st0);
    var f := Defaults(builders[j].fields, env, builders[j].drawn);
    PreparedFields(builders, env, batchOk, batches, j);
    SpecIsLossless(FinalFields(b, st0, j), field);
    EditedKeeps(Chain(builders[j].hooks), f, field);
    DefaultsFillTheGaps(builders[j].fields, env, builders[j].drawn, field);
    hide RunChain, CreateSpec, Check, FullSpecs, Defaults, FieldValue, Column, Edited, LeavesField, LeavesId, FirstBad, BulkOf;
    hide AllForward, FinalFields, DefaultOf, SameMarks;
  }

  // ---------------------------------------------------------------- how often the batch runs

  /** The product of the call counts of every hook from here on. */
  function Weight(b: Bulk, i: nat, m: Mutator<BuilderHook>): nat
    requires i < |b.chains|
    decreases |b.chains| - i, m
  {
    match m
    case Exec => if i + 1 < |b.chains| then Weight(b, i + 1, b.chains[i + 1]) else 1
    case Wrapped(h, next) => h.calls * Weight(b, i, next)
  }

  /** Edits never turn passing fields into failing ones. */
  ghost predicate PreservesChecks(m: Mutator<BuilderHook>, env: Env) {
    match m
    case Exec => true
    case Wrapped(h, next) =>
      (forall f :: Check(f, env).None? ==> Check(h.edit(f), env).None?) && PreservesChecks(next, env)
  }

  ghost predicate Checked(b: Bulk, st: State, i: nat)
    requires st.Sized(|b.chains|)
  {
    forall j :: i <= j < |b.chains| ==> Check(st.muts[j].fields, b.env).None? && PreservesChecks(b.chains[j], b.env)
  }

  lemma MarkKeepsChecked(b: Bulk, st: State, i: nat, f: Fields, id: Option<string>, done: bool)
    requires i < |b.chains| && st.Sized(|b.chains|) && Checked(b, st, i) && Check(f, b.env).None?
    ensures Checked(b, st.(muts := st.muts[i := Mutation(f, id, done)]), i)
  {
    hide Check, PreservesChecks;
  }

  lemma {:induction false} CountChain(b: Bulk, i: nat, m: Mutator<BuilderHook>, st: State)
    requires i < |b.chains| && st.Sized(|b.chains|) && Checked(b, st, i) && PreservesChecks(m, b.env)
    ensures var after := RunChain(b, i, m, st).0;
      Checked(b, after, i) && |after.batches| == |st.batches| + Weight(b, i, m)
    decreases |b.chains| - i, m, 1, 0
  {
    hide Check, CreateSpec;
    match m
    case Exec =>
      var f := st.muts[i].fields;
      var st1 := HandedOnPlain(st, i, CreateSpec(f));
      assert Checked(b, st1, i);
      if i + 1 < |b.chains| {
        CountChain(b, i + 1, b.chains[i + 1], st1);
        var after := RunChain(b, i + 1, b.chains[i + 1], st1).0;
        OthersUntouched(b, i + 1, b.chains[i + 1], st1, i);
        assert Checked(b, after, i);
        MarkKeepsChecked(b, after, i, f, NodeId(after.nodes[i]), true);
      } else {
        MarkKeepsChecked(b, st1, i, f, NodeId(st1.nodes[i]), true);
      }
    case Wrapped(h, next) =>
      var f := h.edit(st.muts[i].fields);
      MarkKeepsChecked(b, st, i, f, st.muts[i].id, st.muts[i].done);
      CountTimes(b, i, next, h.calls, WithFields(st, i, f));
  }

  lemma {:induction false} CountTimes(b: Bulk, i: nat, m: Mutator<BuilderHook>, k: nat, st: State)
    requires i < |b.chains| && st.Sized(|b.chains|) && Checked(b, st, i) && PreservesChecks(m, b.env)
    ensures var after := RunTimes(b, i, m, k, st).0;
      Checked(b, after, i) && |after.batches| == |st.batches| + k * Weight(b, i, m)
    decreases |b.chains| - i, m, 2, k
  {
    hide RunChain, Checked, PreservesChecks, Weight;
    if k > 0 {
      CountTimes(b, i, m, k - 1, st);
      CountChain(b, i, m, RunTimes(b, i, m, k - 1, st).0);
      assert k * Weight(b, i, m) == (k - 1) * Weight(b, i, m) + Weight(b, i, m);
    }
  }

  function HandedOnPlain(st: State, i: nat, spec: Spec): State
    requires i < |st.nodes| && i < |st.specs|
  {
    st.(nodes := st.nodes[i := Some(spec)], specs := st.specs[i := Some(spec)])
  }

  /** Running builder i never touches the slots of an earlier builder. */
  lemma {:induction false} OthersUntouched(b: Bulk, i: nat, m: Mutator<BuilderHook>, st: State, j: nat)
    requires j < i < |b.chains| && st.Sized(|b.chains|)
    ensures var after := RunChain(b, i, m, st).0;
      after.muts[j] == st.muts[j] && after.nodes[j] == st.nodes[j] && after.specs[j] == st.specs[j]
    decreases |b.chains| - i, m, 1, 0
  {
    hide Check, CreateSpec;
    match m
    case Exec =>
      if i + 1 < |b.chains| {
        OthersUntouched(b, i + 1, b.chains[i + 1], HandedOnPlain(st, i, CreateSpec(st.muts[i].fields)), j);
      }
    case Wrapped(h, next) =>
      OthersUntouchedTimes(b, i, next, h.calls, WithFields(st, i, h.edit(st.muts[i].fields)), j);
  }

  lemma {:induction false} OthersUntouchedTimes(
      b: Bulk, i: nat, m: Mutator<BuilderHook>, k: nat, st: State, j: nat)
    requires j < i < |b.chains| && st.Sized(|b.chains|)
    ensures var after := RunTimes(b, i, m, k, st).0;
      after.muts[j] == st.muts[j] && after.nodes[j] == st.nodes[j] && after.specs[j] == st.specs[j]
    decreases |b.chains| - i, m, 2, k
  {
    if k > 0 {
      OthersUntouchedTimes(b, i, m, k - 1, st, j);
      OthersUntouched(b, i, m, RunTimes(b, i, m, k - 1, st).0, j);
    }
  }

  /** When every check passes, the number of batches is the product of all hooks' call counts,
      whatever the hooks answer and whatever the database does with the batches. */
  lemma BatchRunsOncePerHookProduct(b: Bulk, st: State)
    requires |b.chains| > 0 && st.Sized(|b.chains|) && Checked(b, st, 0)
    ensures |RunChain(b, 0, b.chains[0], st).0.batches| == |st.batches| + Weight(b, 0, b.chains[0])
  {
    CountChain(b, 0, b.chains[0], st);
  }

  /** With checks that may fail the product is the limit. */
  lemma {:induction false} BatchesAtMostProduct(b: Bulk, i: nat, m: Mutator<BuilderHook>, st: State)
    requires i < |b.chains| && st.Sized(|b.chains|)
    ensures |st.batches| <= |RunChain(b, i, m, st).0.batches| <= |st.batches| + Weight(b, i, m)
    decreases |b.chains| - i, m, 1, 0
  {
    hide Check, CreateSpec;
    match m
    case Exec =>
      if i + 1 < |b.chains| {
        BatchesAtMostProduct(b, i + 1, b.chains[i + 1], HandedOnPlain(st, i, CreateSpec(st.muts[i].fields)));
      }
    case Wrapped(h, next) =>
      BatchesAtMostTimes(b, i, next, h.calls, WithFields(st, i, h.edit(st.muts[i].fields)));
  }

  lemma {:induction false} BatchesAtMostTimes(b: Bulk, i: nat, m: Mutator<BuilderHook>, k: nat, st: State)
    requires i < |b.chains| && st.Sized(|b.chains|)
    ensures |st.batches| <= |RunTimes(b, i, m, k, st).0.batches| <= |st.batches| + k * Weight(b, i, m)
    decreases |b.chains| - i, m, 2, k
  {
    hide RunChain, Weight;
    if k > 0 {
      BatchesAtMostTimes(b, i, m, k - 1, st);
      BatchesAtMostProduct(b, i, m, RunTimes(b, i, m, k - 1, st).0);
      assert k * Weight(b, i, m) == (k - 1) * Weight(b, i, m) + Weight(b, i, m);
    }
  }

  // ---------------------------------------------------------------- hooks that hide a missing batch

  /** The chain can answer success although no batch was created. */
  predicate CanHide(b: Bulk, i: nat, m: Mutator<BuilderHook>)
    requires i < |b.chains|
    decreases |b.chains| - i, m
  {
    match m
    case Exec => i + 1 < |b.chains| && CanHide(b, i + 1, b.chains[i + 1])
    case Wrapped(h, next) => h.answer.Success? || (h.answer.LastResult? && (h.calls == 0 || CanHide(b, i, next)))
  }

  /** The latest batch of this invocation was created. */
  predicate Committed(b: Bulk, before: State, after: State) {
    |after.batches| > |before.batches| && b.batchOk(|after.batches| - 1)
  }

  lemma {:induction false} SuccessMeansCommitted(b: Bulk, i: nat, m: Mutator<BuilderHook>, st: State)
    requires i < |b.chains| && st.Sized(|b.chains|) && !CanHide(b, i, m)
    ensures var (after, r) := RunChain(b, i, m, st); r.Ok? ==> Committed(b, st, after)
    decreases |b.chains| - i, m, 1, 0
  {
    hide Check, CreateSpec;
    match m
    case Exec =>
      if i + 1 < |b.chains| {
        SuccessMeansCommitted(b, i + 1, b.chains[i + 1], HandedOnPlain(st, i, CreateSpec(st.muts[i].fields)));
      }
    case Wrapped(h, next) =>
      if h.answer.LastResult? {
        var st1 := WithFields(st, i, h.edit(st.muts[i].fields));
        BatchesAtMostTimes(b, i, next, h.calls - 1, st1);
        SuccessMeansCommitted(b, i, next, RunTimes(b, i, next, h.calls - 1, st1).0);
      }
  }

  /** No later batch is created. */
  ghost predicate RefusedFrom(b: Bulk, n: nat) { forall k :: k >= n ==> !b.batchOk(k) }

  /** With passing checks and a database that refuses every batch from now on, success is
      answered exactly when the chain can hide it. */
  lemma {:induction false} HidingIsReal(b: Bulk, i: nat, m: Mutator<BuilderHook>, st: State)
    requires i < |b.chains| && st.Sized(|b.chains|) && Checked(b, st, i) && PreservesChecks(m, b.env)
    requires RefusedFrom(b, |st.batches|)
    ensures RunChain(b, i, m, st).1.Ok? <==> CanHide(b, i, m)
    decreases |b.chains| - i, m, 1, 0
  {
    hide Check, CreateSpec;
    match m
    case Exec =>
      var st1 := HandedOnPlain(st, i, CreateSpec(st.muts[i].fields));
      if i + 1 < |b.chains| {
        assert Checked(b, st1, i + 1);
        HidingIsReal(b, i + 1, b.chains[i + 1], st1);
      }
    case Wrapped(h, next) =>
      var st1 := WithFields(st, i, h.edit(st.muts[i].fields));
      MarkKeepsChecked(b, st, i, st1.muts[i].fields, st.muts[i].id, st.muts[i].done);
      if h.answer.LastResult? && h.calls > 0 {
        CountTimes(b, i, next, h.calls - 1, st1);
        HidingIsReal(b, i, next, RunTimes(b, i, next, h.calls - 1, st1).0);
      }
  }

  /** Such a chain answers success on every database. */
  lemma {:induction false} HidingAlwaysSucceeds(b: Bulk, i: nat, m: Mutator<BuilderHook>, st: State)
    requires i < |b.chains| && st.Sized(|b.chains|) && Checked(b, st, i) && PreservesChecks(m, b.env) && CanHide(b, i, m)
    ensures RunChain(b, i, m, st).1.Ok?
    decreases |b.chains| - i, m, 1, 0
  {
    hide Check, CreateSpec;
    match m
    case Exec =>
      var st1 := HandedOnPlain(st, i, CreateSpec(st.muts[i].fields));
      assert Checked(b, st1, i + 1);
      HidingAlwaysSucceeds(b, i + 1, b.chains[i + 1], st1);
    case Wrapped(h, next) =>
      var st1 := WithFields(st, i, h.edit(st.muts[i].fields));
      MarkKeepsChecked(b, st, i, st1.muts[i].fields, st.muts[i].id, st.muts[i].done);
      if h.answer.LastResult? && h.calls > 0 {
        CountTimes(b, i, next, h.calls - 1, st1);
        HidingAlwaysSucceeds(b, i, next, RunTimes(b, i, next, h.calls - 1, st1).0);
      }
  }

  // ---------------------------------------------------------------- hooks that lose a created batch

  /** The chain can answer failure although a batch was created: a hook fails on its own after
      one, or calls next again and returns that failure. */
  predicate CanLose(b: Bulk, i: nat, m: Mutator<BuilderHook>)
    requires i < |b.chains|
    decreases |b.chains| - i, m
  {
    match m
    case Exec => i + 1 < |b.chains| && CanLose(b, i + 1, b.chains[i + 1])
    case Wrapped(h, next) =>
      || (h.answer.Failure? && h.calls > 0 && Weight(b, i, next) > 0)
      || (h.answer.LastResult? && h.calls == 1 && CanLose(b, i, next))
      || (h.answer.LastResult? && h.calls > 1 && Weight(b, i, next) > 0 && !CanHide(b, i, next))
  }

  /** Some batch of this invocation was created. */
  ghost predicate Created(b: Bulk, before: State, after: State) {
    exists k :: |before.batches| <= k < |after.batches| && b.batchOk(k)
  }

  /** Unless a hook can lose it, failure means that no batch of the invocation was created. */
  lemma {:induction false} FailureMeansNothingCreated(b: Bulk, i: nat, m: Mutator<BuilderHook>, st: State)
    requires i < |b.chains| && st.Sized(|b.chains|) && Checked(b, st, i) && PreservesChecks(m, b.env)
    requires !CanLose(b, i, m)
    ensures var (after, r) := RunChain(b, i, m, st); r.Err? ==> !Created(b, st, after)
    decreases |b.chains| - i, m, 1, 0
  {
    hide Check, CreateSpec;
    match m
    case Exec =>
      var st1 := HandedOnPlain(st, i, CreateSpec(st.muts[i].fields));
      if i + 1 < |b.chains| {
        assert Checked(b, st1, i + 1);
        FailureMeansNothingCreated(b, i + 1, b.chains[i + 1], st1);
      }
    case Wrapped(h, next) =>
      var st1 := WithFields(st, i, h.edit(st.muts[i].fields));
      MarkKeepsChecked(b, st, i, st1.muts[i].fields, st.muts[i].id, st.muts[i].done);
      CountTimes(b, i, next, h.calls, st1);
      if h.answer.LastResult? && h.calls == 1 {
        FailureMeansNothingCreated(b, i, next, st1);
        OnceIsChain(b, i, next, st1);
      } else if h.answer.LastResult? && h.calls > 1 && CanHide(b, i, next) {
        CountTimes(b, i, next, h.calls - 1, st1);
        HidingAlwaysSucceeds(b, i, next, RunTimes(b, i, next, h.calls - 1, st1).0);
      }
  }

  lemma OnceIsChain(b: Bulk, i: nat, m: Mutator<BuilderHook>, st: State)
    requires i < |b.chains| && st.Sized(|b.chains|)
    ensures RunTimes(b, i, m, 1, st) == RunChain(b, i, m, st)
  {
    hide RunChain;
    assert RunTimes(b, i, m, 0, st).0 == st;
  }

  /** Where one can, a database that creates the first batch only makes it happen. */
  lemma {:induction false} LosingIsReal(b: Bulk, i: nat, m: Mutator<BuilderHook>, st: State)
    requires i < |b.chains| && st.Sized(|b.chains|) && Checked(b, st, i) && PreservesChecks(m, b.env)
    requires CanLose(b, i, m) && b.batchOk(|st.batches|) && RefusedFrom(b, |st.batches| + 1)
    ensures var (after, r) := RunChain(b, i, m, st); r.Err? && |after.batches| > |st.batches|
    decreases |b.chains| - i, m, 1, 0
  {
    hide Check, CreateSpec;
    match m
    case Exec =>
      var st1 := HandedOnPlain(st, i, CreateSpec(st.muts[i].fields));
      assert Checked(b, st1, i + 1);
      LosingIsReal(b, i + 1, b.chains[i + 1], st1);
    case Wrapped(h, next) =>
      var st1 := WithFields(st, i, h.edit(st.muts[i].fields));
      MarkKeepsChecked(b, st, i, st1.muts[i].fields, st.muts[i].id, st.muts[i].done);
      CountTimes(b, i, next, h.calls, st1);
      if h.answer.LastResult? && h.calls == 1 {
        LosingIsReal(b, i, next, st1);
        OnceIsChain(b, i, next, st1);
      } else if h.answer.LastResult? {
        CountTimes(b, i, next, h.calls - 1, st1);
        AtLeastOne(h.calls - 1, Weight(b, i, next));
        AtLeastOne(h.calls, Weight(b, i, next));
        HidingIsReal(b, i, next, RunTimes(b, i, next, h.calls - 1, st1).0);
      } else {
        AtLeastOne(h.calls, Weight(b, i, next));
      }
  }

  lemma AtLeastOne(m: nat, n: nat)
    requires m > 0 && n > 0
    ensures m * n > 0
  {
  }

  // ---------------------------------------------------------------- exactly when all or nothing

  /** The same builders on another database. */
  function On(b: Bulk, ok: nat -> bool): Bulk { b.(batchOk := ok) }

  lemma {:induction false} SameOnEveryDatabase(b: Bulk, ok: nat -> bool, i: nat, m: Mutator<BuilderHook>)
    requires i < |b.chains|
    ensures Weight(On(b, ok), i, m) == Weight(b, i, m)
    ensures CanHide(On(b, ok), i, m) == CanHide(b, i, m) && CanLose(On(b, ok), i, m) == CanLose(b, i, m)
    decreases |b.chains| - i, m
  {
    match m
    case Exec => if i + 1 < |b.chains| { SameOnEveryDatabase(b, ok, i + 1, b.chains[i + 1]); }
    case Wrapped(h, next) => SameOnEveryDatabase(b, ok, i, next);
  }

  /** Success means one batch, which was created; failure means that none was. */
  ghost predicate AllOrNothing(b: Bulk, st: State)
    requires |b.chains| > 0 && st.Sized(|b.chains|)
  {
    var (after, r) := RunChain(b, 0, b.chains[0], st);
    && (r.Ok? ==> |after.batches| == |st.batches| + 1 && b.batchOk(|st.batches|))
    && (r.Err? ==> !Created(b, st, after))
  }

  ghost predicate ForwardFrom(b: Bulk, i: nat) {
    forall j :: i <= j < |b.chains| ==> Forwards(b.chains[j])
  }

  /** Hooks that run one batch and can neither hide nor lose one are the forwarding ones. */
  lemma {:induction false} ForwardingExactlyWhen(b: Bulk, i: nat, m: Mutator<BuilderHook>)
    requires i < |b.chains|
    ensures Weight(b, i, m) == 1 && !CanHide(b, i, m) && !CanLose(b, i, m) <==> Forwards(m) && ForwardFrom(b, i + 1)
    decreases |b.chains| - i, m
  {
    match m
    case Exec =>
      if i + 1 < |b.chains| { ForwardingExactlyWhen(b, i + 1, b.chains[i + 1]); }
    case Wrapped(h, next) =>
      ForwardingExactlyWhen(b, i, next);
      ProductIsOne(h.calls, Weight(b, i, next));
  }

  lemma ProductIsOne(m: nat, n: nat)
    ensures m * n == 1 <==> m == 1 && n == 1
  {
    if m >= 2 && n >= 1 { assert m * n >= 2 * n; }
  }

  lemma {:induction false} NothingToLose(b: Bulk, i: nat, m: Mutator<BuilderHook>)
    requires i < |b.chains| && Weight(b, i, m) == 0
    ensures !CanLose(b, i, m)
    decreases |b.chains| - i, m
  {
    match m
    case Exec => if i + 1 < |b.chains| { NothingToLose(b, i + 1, b.chains[i + 1]); }
    case Wrapped(h, next) =>
      if h.calls > 0 && Weight(b, i, next) > 0 { AtLeastOne(h.calls, Weight(b, i, next)); }
      if Weight(b, i, next) == 0 { NothingToLose(b, i, next); }
  }

  /** The builders keep their promise whatever the database does. */
  ghost predicate AlwaysAllOrNothing(b: Bulk, st: State)
    requires |b.chains| > 0 && st.Sized(|b.chains|)
  {
    forall ok: nat -> bool :: AllOrNothing(On(b, ok), st)
  }

  lemma PromiseKept(b: Bulk, st: State)
    requires |b.chains| > 0 && st.Sized(|b.chains|) && Checked(b, st, 0)
    requires Weight(b, 0, b.chains[0]) <= 1 && !CanHide(b, 0, b.chains[0]) && !CanLose(b, 0, b.chains[0])
    ensures AllOrNothing(b, st)
  {
    CountChain(b, 0, b.chains[0], st);
    SuccessMeansCommitted(b, 0, b.chains[0], st);
    FailureMeansNothingCreated(b, 0, b.chains[0], st);
    hide RunChain, CanHide, CanLose, Weight, Checked;
  }

  lemma PromiseBroken(b: Bulk, st: State)
    requires |b.chains| > 0 && st.Sized(|b.chains|) && Checked(b, st, 0)
    requires Weight(b, 0, b.chains[0]) > 1 || CanHide(b, 0, b.chains[0]) || CanLose(b, 0, b.chains[0])
    ensures !AlwaysAllOrNothing(b, st)
  {
    hide RunChain, CanHide, CanLose, Weight, Checked;
    var n := |st.batches|;
    var ok: nat -> bool :=
      if CanHide(b, 0, b.chains[0]) then _ => false else if CanLose(b, 0, b.chains[0]) then k => k == n else _ => true;
    var other := On(b, ok);
    SameOnEveryDatabase(b, ok, 0, b.chains[0]);
    CheckedOn(b, ok, st);
    CountChain(other, 0, b.chains[0], st);
    if CanHide(b, 0, b.chains[0]) {
      HidingIsReal(other, 0, b.chains[0], st);
    } else if CanLose(b, 0, b.chains[0]) {
      LosingIsReal(other, 0, b.chains[0], st);
      assert ok(n);
    } else {
      assert ok(n);
    }
    assert !AllOrNothing(other, st);
  }

  lemma CheckedOn(b: Bulk, ok: nat -> bool, st: State)
    requires st.Sized(|b.chains|) && Checked(b, st, 0)
    ensures Checked(On(b, ok), st, 0)
  {
  }

  /** All or nothing holds on every database exactly when every hook of every builder calls
      next once and returns its result, or else no batch is ever reached and success is never
      answered. */
  lemma AllOrNothingExactlyWhen(b: Bulk, st: State)
    requires |b.chains| > 0 && st.Sized(|b.chains|) && Checked(b, st, 0)
    ensures AlwaysAllOrNothing(b, st) <==>
      AllForward(b) || (Weight(b, 0, b.chains[0]) == 0 && !CanHide(b, 0, b.chains[0]))
  {
    hide RunChain, CanHide, CanLose, Weight, Checked, AllOrNothing, Forwards;
    var m := b.chains[0];
    ForwardingExactlyWhen(b, 0, m);
    assert AllForward(b) <==> Forwards(m) && ForwardFrom(b, 1);
    if Weight(b, 0, m) == 0 { NothingToLose(b, 0, m); }
    if Weight(b, 0, m) <= 1 && !CanHide(b, 0, m) && !CanLose(b, 0, m) {
      forall ok: nat -> bool ensures AllOrNothing(On(b, ok), st) {
        SameOnEveryDatabase(b, ok, 0, m);
        CheckedOn(b, ok, st);
        PromiseKept(On(b, ok), st);
      }
    } else {
      PromiseBroken(b, st);
    }
  }

  // ---------------------------------------------------------------- the done marks

  /** Unless a later builder's hooks can hide a missing batch, a mutation is marked done only
      when a batch of the invocation was created, whatever the invocation answers. */
  lemma {:induction false} MarksMeanCreated(b: Bulk, i: nat, m: Mutator<BuilderHook>, st: State, j: nat)
    requires i <= j < |b.chains| && st.Sized(|b.chains|)
    requires forall k :: i < k < |b.chains| ==> !CanHide(b, k, b.chains[k])
    ensures var after := RunChain(b, i, m, st).0; after.muts[j].done ==> st.muts[j].done || Created(b, st, after)
    decreases |b.chains| - i, m, 1, 0
  {
    hide Check, CreateSpec;
    match m
    case Exec =>
      var st1 := HandedOnPlain(st, i, CreateSpec(st.muts[i].fields));
      if i + 1 < |b.chains| {
        var next := b.chains[i + 1];
        if j > i { MarksMeanCreated(b, i + 1, next, st1, j); }
        SuccessMeansCommitted(b, i + 1, next, st1);
        OthersUntouched(b, i + 1, next, st1, i);
      }
    case Wrapped(h, next) =>
      MarksMeanCreatedTimes(b, i, next, h.calls, WithFields(st, i, h.edit(st.muts[i].fields)), j);
  }

  lemma {:induction false} MarksMeanCreatedTimes(b: Bulk, i: nat, m: Mutator<BuilderHook>, k: nat, st: State, j: nat)
    requires i <= j < |b.chains| && st.Sized(|b.chains|)
    requires forall l :: i < l < |b.chains| ==> !CanHide(b, l, b.chains[l])
    ensures var after := RunTimes(b, i, m, k, st).0; after.muts[j].done ==> st.muts[j].done || Created(b, st, after)
    decreases |b.chains| - i, m, 2, k
  {
    hide RunChain, CanHide;
    if k > 0 {
      var mid := RunTimes(b, i, m, k - 1, st).0;
      MarksMeanCreatedTimes(b, i, m, k - 1, st, j);
      MarksMeanCreated(b, i, m, mid, j);
      BatchesAtMostTimes(b, i, m, k - 1, st);
      BatchesAtMostProduct(b, i, m, mid);
    }
  }

  /** A hook that calls next once and then fails: one batch, created, the mutation marked done,
      and yet the answer is the hook's failure. It neither hides a batch nor runs two. */
  lemma FailingAfterCommit(b: Bulk, st: State, edit: Fields -> Fields, message: string)
    requires b.chains == [Wrapped(BuilderHook(edit, 1, Failure(message)), Exec)] && st.Sized(1)
    requires Check(edit(st.muts[0].fields), b.env).None? && b.batchOk(|st.batches|)
    ensures Weight(b, 0, b.chains[0]) == 1 && !CanHide(b, 0, b.chains[0]) && CanLose(b, 0, b.chains[0])
    ensures var (after, r) := RunChain(b, 0, b.chains[0], st);
      r == Err(Hook(message)) && |after.batches| == |st.batches| + 1 && Created(b, st, after) && after.muts[0].done
  {
    hide Check, CreateSpec;
    var st1 := WithFields(st, 0, edit(st.muts[0].fields));
    OnceIsChain(b, 0, Exec, st1);
    assert RunChain(b, 0, Exec, st1) == Innermost(b, 0, st1);
  }

  /** A second builder's hook that answers success on its own: the first mutation is marked
      done and success is answered, with no batch at all. */
  lemma MarkedWithoutBatch(b: Bulk, st: State, edit: Fields -> Fields)
    requires b.chains == [Exec, Wrapped(BuilderHook(edit, 0, Success), Exec)] && st.Sized(2)
    requires Check(st.muts[0].fields, b.env).None?
    ensures CanHide(b, 1, b.chains[1])
    ensures var (after, r) := RunChain(b, 0, b.chains[0], st);
      r.Ok? && after.batches == st.batches && after.muts[0].done && after.muts[1].done == st.muts[1].done
  {
    hide Check, CreateSpec;
    var st1 := HandedOnPlain(st, 0, CreateSpec(st.muts[0].fields));
    assert RunChain(b, 0, Exec, st) == Innermost(b, 0, st);
    var (after, r) := RunChain(b, 1, b.chains[1], st1);
    assert RunTimes(b, 1, Exec, 0, WithFields(st1, 1, edit(st1.muts[1].fields))).1 == Ok;
    assert r.Ok? && after.batches == st1.batches && after.muts[1].done == st.muts[1].done;
  }
}
