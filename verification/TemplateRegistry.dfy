/** The template registry and the four commands that change it, with their effect on
    every layer chain. */
module TemplateRegistry {
  import opened Seqs
  import opened LayerChain

  datatype Meta = Meta(description: string, basedOn: string, snapshotAt: Option<int>)

  /** A registry command. A save or snapshot carries the template of the session it captured;
      `persisted` says whether writing the registry file succeeded. */
  datatype Op =
    | Create(name: string, description: string, persisted: bool)
    | Save(name: string, description: string, sessionTemplate: string, persisted: bool)
    | Snapshot(name: string, sessionTemplate: string, now: int, persisted: bool)
    | Delete(name: string, persisted: bool)

  function Registered(templates: map<string, Meta>, name: string, description: string, basedOn: string): Meta {
    var meta := if name in templates then templates[name] else Meta("", "", None);
    var described := if description != "" then meta.(description := description) else meta;
    if basedOn != "" then described.(basedOn := basedOn) else described
  }

  function Touched(templates: map<string, Meta>, name: string, basedOn: string, now: int): Meta {
    var meta := if name in templates then templates[name] else Meta("", basedOn, None);
    var based := if basedOn != "" && meta.basedOn == "" then meta.(basedOn := basedOn) else meta;
    based.(snapshotAt := Some(now))
  }

  /** The registry after one command. */
  function After(templates: map<string, Meta>, op: Op): map<string, Meta> {
    if !op.persisted || IsBaseName(op.name) then templates else
    match op
    case Create(name, description, _) =>
      if name in templates then templates else templates[name := Registered(templates, name, description, BASE)]
    case Save(name, description, sessionTemplate, _) =>
      templates[name := Registered(templates, name, description, if sessionTemplate == "" then BASE else sessionTemplate)]
    case Snapshot(name, sessionTemplate, now, _) =>
      templates[name := Touched(templates, name, sessionTemplate, now)]
    case Delete(name, _) => templates - {name}
  }

  function BasedOn(templates: map<string, Meta>): map<string, string> {
    map n | n in templates :: templates[n].basedOn
  }

  class Registry {
    var templates: map<string, Meta>

    method Register(name: string, description: string, basedOn: string, persisted: bool) returns (ok: bool)
      modifies this
      ensures ok == persisted
      ensures templates == if persisted then old(templates)[name := Registered(old(templates), name, description, basedOn)]
                           else old(templates)
    {
      var meta := Meta("", "", None);
      if name in templates {
        meta := templates[name];
      }
      if description != "" {
        meta := meta.(description := description);
      }
      if basedOn != "" {
        meta := meta.(basedOn := basedOn);
      }
      if persisted {
        templates := templates[name := meta];
      }
      ok := persisted;
    }

    method TouchSnapshot(name: string, basedOn: string, now: int, persisted: bool) returns (ok: bool)
      modifies this
      ensures ok == persisted
      ensures templates == if persisted then old(templates)[name := Touched(old(templates), name, basedOn, now)]
                           else old(templates)
    {
      var meta := Meta("", basedOn, None);
      if name in templates {
        meta := templates[name];
      }
      if basedOn != "" && meta.basedOn == "" {
        meta := meta.(basedOn := basedOn);
      }
      meta := meta.(snapshotAt := Some(now));
      if persisted {
        templates := templates[name := meta];
      }
      ok := persisted;
    }

    /** The registry effect of one command. */
    method Run(op: Op)
      modifies this
      ensures templates == After(old(templates), op)
    {
      if IsBaseName(op.name) {
        return;
      }
      match op {
        case Create(name, description, persisted) =>
          if name !in templates {
            var _ := Register(name, description, BASE, persisted);
          }
        case Save(name, description, sessionTemplate, persisted) =>
          var basedOn := sessionTemplate;
          if basedOn == "" {
            basedOn := BASE;
          }
          var _ := Register(name, description, basedOn, persisted);
        case Snapshot(name, sessionTemplate, now, persisted) =>
          var _ := TouchSnapshot(name, sessionTemplate, now, persisted);
        case Delete(name, persisted) =>
          if persisted {
            templates := templates - {name};
          }
      }
    }
  }

  function AfterAll(templates: map<string, Meta>, ops: seq<Op>): map<string, Meta> {
    if ops == [] then templates
    else After(AfterAll(templates, ops[..|ops| - 1]), ops[|ops| - 1])
  }

  function Names(ops: seq<Op>): set<string> {
    set op | op in ops :: op.name
  }

  lemma OneCommandTouchesOneName(templates: map<string, Meta>, op: Op)
    ensures SameOutside(BasedOn(templates), BasedOn(After(templates, op)), {op.name})
    ensures IsBaseName(op.name) ==> After(templates, op) == templates
  {
    hide IsBaseName;
  }

  lemma {:induction false} RunTouchesItsNames(templates: map<string, Meta>, ops: seq<Op>)
    ensures SameOutside(BasedOn(templates), BasedOn(AfterAll(templates, ops)), Names(ops))
  {
    hide After, BasedOn;
    if ops != [] {
      var init, op := ops[..|ops| - 1], ops[|ops| - 1];
      RunTouchesItsNames(templates, init);
      OneCommandTouchesOneName(AfterAll(templates, init), op);
      assert ops == init + [op];
      assert Names(ops) == Names(init) + {op.name};
    }
  }

  /** Frame over whole runs: commands on other templates leave a chain as it was. */
  lemma RunKeepsUnrelatedChains(templates: map<string, Meta>, ops: seq<Op>, name: string)
    requires forall x :: x in Chain(name, BasedOn(templates)) ==> x !in Names(ops)
    ensures Chain(name, BasedOn(AfterAll(templates, ops))) == Chain(name, BasedOn(templates))
  {
    hide Chain, BasedOn, AfterAll;
    RunTouchesItsNames(templates, ops);
    ChainFrame(name, BasedOn(templates), BasedOn(AfterAll(templates, ops)), Names(ops));
  }

  /** Deleting a template cuts every chain through it just below it. */
  lemma DeleteCutsChains(templates: map<string, Meta>, t: string, name: string)
    requires !IsBaseName(name) && !IsBaseName(t) && t in Chain(name, BasedOn(templates))
    ensures var c := Chain(name, BasedOn(templates));
            exists k :: 1 <= k < |c| && c[k] == t &&
                        Chain(name, BasedOn(After(templates, Delete(t, true)))) == [BASE] + c[k..]
  {
    assert BasedOn(After(templates, Delete(t, true))) == BasedOn(templates) - {t};
    hide IsBaseName, Chain;
    DeletionCutsChain(name, BasedOn(templates), t);
  }

  /** A command on a template makes it its own parent exactly when it captures a session that
      runs on that template and, for a snapshot, no parent was recorded before. */
  lemma WhenATemplateBecomesItsOwnParent(templates: map<string, Meta>, op: Op)
    requires !IsBaseName(op.name) && op.persisted
    requires ParentOf(BasedOn(templates), op.name) != op.name
    ensures ParentOf(BasedOn(After(templates, op)), op.name) == op.name <==>
      || (op.Save? && op.sessionTemplate == op.name)
      || (op.Snapshot? && op.sessionTemplate == op.name && ParentOf(BasedOn(templates), op.name) == "")
  {
    BaseNames();
    hide IsBaseName;
  }

  /** Its chain is then just the base and itself, as is every chain's part up to it. */
  lemma OwnParentIsCut(templates: map<string, Meta>, name: string, k: nat, after: map<string, Meta>)
    requires !IsBaseName(name) && 1 <= k < |Chain(name, BasedOn(templates))|
    requires var t := Chain(name, BasedOn(templates))[k];
      SameOutside(BasedOn(templates), BasedOn(after), {t}) && ParentOf(BasedOn(after), t) == t
    ensures Chain(name, BasedOn(after)) == [BASE] + Chain(name, BasedOn(templates))[k..]
  {
    hide IsBaseName, Chain, BasedOn;
    var c := Chain(name, BasedOn(templates));
    assert c[k..][0] == c[k];
    ChainCutAt(name, BasedOn(templates), BasedOn(after), k);
  }

  /** A recorded parent changes only by a save or a deletion of that very template: it survives
      any run of other commands, snapshots and repeated creations of the template included. */
  lemma {:induction false} ParentSurvivesRun(templates: map<string, Meta>, ops: seq<Op>, name: string)
    requires ParentOf(BasedOn(templates), name) != ""
    requires forall op :: op in ops && op.name == name ==> op.Create? || op.Snapshot?
    ensures ParentOf(BasedOn(AfterAll(templates, ops)), name) == ParentOf(BasedOn(templates), name)
  {
    if ops != [] {
      var init, op := ops[..|ops| - 1], ops[|ops| - 1];
      assert op in ops && forall o :: o in init ==> o in ops;
      ParentSurvivesRun(templates, init, name);
      hide AfterAll;
      OneCommandKeepsParent(AfterAll(templates, init), op, name);
    }
  }

  lemma OneCommandKeepsParent(templates: map<string, Meta>, op: Op, name: string)
    requires ParentOf(BasedOn(templates), name) != "" && (op.name == name ==> op.Create? || op.Snapshot?)
    ensures ParentOf(BasedOn(After(templates, op)), name) == ParentOf(BasedOn(templates), name)
  {
    hide IsBaseName;
  }

  /** A command that leaves the description of the template alone: one on another template, a
      save without a description, a snapshot, a creation, or one that was not written. */
  predicate KeepsDescription(op: Op, name: string) {
    op.name == name ==> !op.persisted || op.Create? || op.Snapshot? || (op.Save? && op.description == "")
  }

  /** A command that takes no new snapshot of it and does not delete it. */
  predicate KeepsSnapshot(op: Op, name: string) {
    op.name == name ==> !op.persisted || op.Create? || op.Save?
  }

  /** A saved description stays until the next save with one, or a deletion: snapshots, saves
      without a description and repeated creations do not touch it. */
  lemma {:induction false} DescriptionSurvivesRun(templates: map<string, Meta>, save: Op, ops: seq<Op>)
    requires save.Save? && save.persisted && save.description != "" && !IsBaseName(save.name)
    requires forall op :: op in ops ==> KeepsDescription(op, save.name)
    ensures var now := AfterAll(After(templates, save), ops);
            save.name in now && now[save.name].description == save.description
  {
    if ops != [] {
      var init, op := ops[..|ops| - 1], ops[|ops| - 1];
      assert op in ops && forall o :: o in init ==> o in ops;
      DescriptionSurvivesRun(templates, save, init);
      hide AfterAll, IsBaseName;
    }
  }

  /** The recorded snapshot time is that of the last snapshot: saves and creations keep it. */
  lemma {:induction false} SnapshotTimeSurvivesRun(templates: map<string, Meta>, snapshot: Op, ops: seq<Op>)
    requires snapshot.Snapshot? && snapshot.persisted && !IsBaseName(snapshot.name)
    requires forall op :: op in ops ==> KeepsSnapshot(op, snapshot.name)
    ensures var now := AfterAll(After(templates, snapshot), ops);
            snapshot.name in now && now[snapshot.name].snapshotAt == Some(snapshot.now)
  {
    if ops != [] {
      var init, op := ops[..|ops| - 1], ops[|ops| - 1];
      assert op in ops && forall o :: o in init ==> o in ops;
      SnapshotTimeSurvivesRun(templates, snapshot, init);
      hide AfterAll, IsBaseName;
    }
  }

  function SavedParent(sessionTemplate: string): string { if sessionTemplate == "" then "@base" else sessionTemplate }

  /** A new template: from creation its description and the base as parent, from a save the
      session's template as parent, from a snapshot the parent and the time but no description. */
  lemma NewTemplate(templates: map<string, Meta>, op: Op)
    requires op.persisted && !IsBaseName(op.name) && op.name !in templates
    ensures var now := After(templates, op);
      && (op.Create? ==> op.name in now && now[op.name] == Meta(op.description, "@base", None))
      && (op.Save? ==> op.name in now && now[op.name] == Meta(op.description, SavedParent(op.sessionTemplate), None))
      && (op.Snapshot? ==> op.name in now && now[op.name] == Meta("", op.sessionTemplate, Some(op.now)))
      && (op.Delete? ==> now == templates)
  {
    hide IsBaseName;
  }

  /** Commands on the base, and commands whose write fails, change nothing at all. */
  lemma NothingWritten(templates: map<string, Meta>, op: Op)
    requires !op.persisted || op.name == "" || op.name == "base" || op.name == "@base"
    ensures After(templates, op) == templates
  {
    if op.persisted { BaseNames(); }
    hide IsBaseName;
  }
}
