/** Interrupting the setup and running it again. */
module ProvisioningProperties {
  import opened Seqs
  import opened Provisioning

  /** The effect of step n is there. */
  predicate Settled(n: nat, s: State, inp: Inputs) {
    if n == 1 then FindUser(s.users, inp.email).Some?
    else if n == 2 then FindOrg(s.orgs, inp.slug).Some?
    else if n == 3 then Pair(s, inp).Some? && Pair(s, inp).value in s.members && s.members[Pair(s, inp).value] == "owner"
    else if n == 4 then ValidSlug(inp.slug) && inp.slug in s.databases
    else if n == 5 then inp.slug in s.databases && HasTeam(s.databases[inp.slug].teams, TEAM)
    else if n == 6 then inp.slug in s.databases && TEAM in s.databases[inp.slug].teamDbs
    else n == 7 && inp.slug in s.databases && Pair(s, inp).Some? && Pair(s, inp).value.0 in s.databases[inp.slug].personalDbs
  }

  ghost predicate SettledUpTo(k: nat, s: State, inp: Inputs) {
    forall m :: 1 <= m <= k ==> Settled(m, s, inp)
  }

  lemma AppendedTeam(teams: seq<Team>, t: Team)
    ensures HasTeam(teams + [t], t.slug)
    ensures forall slug :: HasTeam(teams, slug) ==> HasTeam(teams + [t], slug)
  {
    assert t in teams + [t];
    forall slug | HasTeam(teams, slug) ensures HasTeam(teams + [t], slug) {
      var x :| x in teams && x.slug == slug;
      assert x in teams + [t];
    }
  }

  lemma StepSettles(n: nat, s: State, inp: Inputs, g: Generated, policy: Policy)
    requires Do(n, s, inp, g, policy).Some?
    ensures Settled(n, Do(n, s, inp, g, policy).value, inp)
  {
    hide ValidSlug, HasTeam, SchemaTaken, DbNameTaken;
    FindUserAppend(s.users, User(g.user, inp.email, inp.name, g.secret), inp.email);
    FindOrgAppend(s.orgs, Org(g.org, inp.orgName, inp.slug, ""), inp.slug);
    if n == 5 { AppendedTeam(s.databases[inp.slug].teams, Team(g.team, TEAM, TEAM_SCHEMA)); }
  }

  lemma StepKeepsSettled(n: nat, m: nat, s: State, inp: Inputs, g: Generated, policy: Policy)
    requires Do(n, s, inp, g, policy).Some? && Settled(m, s, inp)
    ensures Settled(m, Do(n, s, inp, g, policy).value, inp)
  {
    hide ValidSlug, HasTeam, SchemaTaken, DbNameTaken, FindUser, FindOrg;
    FindUserAppend(s.users, User(g.user, inp.email, inp.name, g.secret), inp.email);
    FindOrgAppend(s.orgs, Org(g.org, inp.orgName, inp.slug, ""), inp.slug);
    if n == 5 { AppendedTeam(s.databases[inp.slug].teams, Team(g.team, TEAM, TEAM_SCHEMA)); }
  }

  /** A settled step changes nothing, except that a plain insert of the membership fails. */
  lemma SettledStep(n: nat, s: State, inp: Inputs, g: Generated, policy: Policy)
    requires Settled(n, s, inp)
    ensures Do(n, s, inp, g, policy) == if n == 3 && policy == PlainInsert then None else Some(s)
  {
    hide ValidSlug, HasTeam, SchemaTaken, DbNameTaken, FindUser, FindOrg;
    if n == 3 {
      assert s.members[Pair(s, inp).value := "owner"] == s.members;
    } else if n >= 6 {
      var db := s.databases[inp.slug];
      assert n == 6 ==> db.teamDbs + {TEAM} == db.teamDbs;
      assert n == 7 ==> db.personalDbs + {Pair(s, inp).value.0} == db.personalDbs;
      assert s.databases[inp.slug := db] == s.databases;
    }
  }

  lemma {:induction false} RunSettles(n: nat, last: nat, s: State, inp: Inputs, g: Generated, policy: Policy)
    requires 1 <= n <= last + 1 && SettledUpTo(n - 1, s, inp)
    ensures var o := RunFrom(n, last, s, inp, g, policy); SettledUpTo(o.done, o.state, inp)
    decreases last + 1 - n
  {
    hide Do, Settled;
    if n <= last && Do(n, s, inp, g, policy).Some? {
      var t := Do(n, s, inp, g, policy).value;
      StepSettles(n, s, inp, g, policy);
      forall m | 1 <= m <= n - 1 ensures Settled(m, t, inp) { StepKeepsSettled(n, m, s, inp, g, policy); }
      RunSettles(n + 1, last, t, inp, g, policy);
    }
  }

  lemma {:induction false} SkipSettled(n: nat, k: nat, s: State, inp: Inputs, g: Generated, policy: Policy)
    requires 1 <= n <= k + 1 && k <= STEPS && SettledUpTo(k, s, inp) && (policy == Upsert || k < 3)
    ensures RunFrom(n, STEPS, s, inp, g, policy) == RunFrom(k + 1, STEPS, s, inp, g, policy)
    decreases k + 1 - n
  {
    if n <= k {
      hide Do, Settled;
      assert Settled(n, s, inp);
      SettledStep(n, s, inp, g, policy);
      SkipSettled(n + 1, k, s, inp, g, policy);
    }
  }

  /** What two runs together make up: whatever the first one did not get to comes from the second. */
  function Mix(g1: Generated, g2: Generated, done: nat): Generated {
    Generated(if done >= 1 then g1.user else g2.user, if done >= 1 then g1.secret else g2.secret,
              if done >= 2 then g1.org else g2.org, if done >= 5 then g1.team else g2.team)
  }

  lemma MixAgrees(n: nat, s: State, inp: Inputs, g1: Generated, g2: Generated, done: nat, policy: Policy)
    ensures Do(n, s, inp, Mix(g1, g2, done), policy) == Do(n, s, inp, if n <= done then g1 else g2, policy)
  {
    hide FindUser, FindOrg, HasTeam, SchemaTaken, DbNameTaken, AddMember, ProvisionOrg, ProvisionTeam, ProvisionPersonal;
  }

  lemma {:induction false} TailAgrees(n: nat, done: nat, s: State, inp: Inputs, g1: Generated, g2: Generated, policy: Policy)
    requires done < n <= STEPS + 1
    ensures RunFrom(n, STEPS, s, inp, Mix(g1, g2, done), policy) == RunFrom(n, STEPS, s, inp, g2, policy)
    decreases STEPS + 1 - n
  {
    hide Do, Mix;
    if n <= STEPS {
      MixAgrees(n, s, inp, g1, g2, done, policy);
      if Do(n, s, inp, g2, policy).Some? {
        TailAgrees(n + 1, done, Do(n, s, inp, g2, policy).value, inp, g1, g2, policy);
      }
    }
  }

  lemma {:induction false} Resume(n: nat, last: nat, s: State, inp: Inputs, g1: Generated, g2: Generated, policy: Policy)
    requires 1 <= n <= last + 1 <= STEPS + 1
    ensures var o := RunFrom(n, last, s, inp, g1, policy);
      RunFrom(n, STEPS, s, inp, Mix(g1, g2, o.done), policy) == RunFrom(o.done + 1, STEPS, o.state, inp, g2, policy)
    decreases last + 1 - n
  {
    hide Do, Mix;
    var o := RunFrom(n, last, s, inp, g1, policy);
    if n <= last && Do(n, s, inp, g1, policy).Some? {
      MixAgrees(n, s, inp, g1, g2, o.done, policy);
      Resume(n + 1, last, Do(n, s, inp, g1, policy).value, inp, g1, g2, policy);
    } else {
      TailAgrees(n, o.done, s, inp, g1, g2, policy);
    }
  }

  /** Were the membership an upsert, an interrupted setup and a second one would leave exactly
      the store of a single run, wherever the interruption or failure came and whatever the
      store held: the identifiers come partly from one run, partly from the other. */
  lemma ResumedRunIsOneRun(last: nat, s: State, inp: Inputs, g1: Generated, g2: Generated)
    requires last <= STEPS
    ensures var first := Run(last, s, inp, g1, Upsert);
      Run(STEPS, first.state, inp, g2, Upsert) == Run(STEPS, s, inp, Mix(g1, g2, first.done), Upsert)
  {
    hide RunFrom, Mix;
    var first := Run(last, s, inp, g1, Upsert);
    RunSettles(1, last, s, inp, g1, Upsert);
    SkipSettled(1, first.done, first.state, inp, g2, Upsert);
    Resume(1, last, s, inp, g1, g2, Upsert);
  }

  /** A run that stops after some of its steps. */
  datatype Attempt = Attempt(last: nat, generated: Generated)

  function After(s: State, attempts: seq<Attempt>, inp: Inputs, policy: Policy): State {
    if attempts == [] then s
    else
      var a := attempts[|attempts| - 1];
      Run(a.last, After(s, attempts[..|attempts| - 1], inp, policy), inp, a.generated, policy).state
  }

  /** The same for any number of interrupted attempts. */
  lemma {:induction false} ManyAttemptsAreOneRun(s: State, attempts: seq<Attempt>, inp: Inputs, g: Generated)
    returns (all: Generated)
    requires forall a :: a in attempts ==> a.last <= STEPS
    ensures Run(STEPS, After(s, attempts, inp, Upsert), inp, g, Upsert) == Run(STEPS, s, inp, all, Upsert)
  {
    if attempts == [] {
      all := g;
    } else {
      hide Run, Mix;
      var a, before := attempts[|attempts| - 1], After(s, attempts[..|attempts| - 1], inp, Upsert);
      assert a in attempts;
      ResumedRunIsOneRun(a.last, before, inp, a.generated, g);
      var both := Mix(a.generated, g, Run(a.last, before, inp, a.generated, Upsert).done);
      all := ManyAttemptsAreOneRun(s, attempts[..|attempts| - 1], inp, both);
    }
  }

  /** With the store's plain insert the second run completes the setup only when the first one
      stopped before the membership; afterwards it fails there and changes nothing. */
  lemma PlainRerun(last: nat, s: State, inp: Inputs, g1: Generated, g2: Generated)
    requires last <= STEPS
    ensures var first := Run(last, s, inp, g1, PlainInsert);
      Run(STEPS, first.state, inp, g2, PlainInsert) ==
      if first.done < 3 then Run(STEPS, s, inp, Mix(g1, g2, first.done), PlainInsert) else Outcome(first.state, 2)
  {
    hide RunFrom, Mix;
    var first := Run(last, s, inp, g1, PlainInsert);
    RunSettles(1, last, s, inp, g1, PlainInsert);
    if first.done < 3 {
      SkipSettled(1, first.done, first.state, inp, g2, PlainInsert);
      Resume(1, last, s, inp, g1, g2, PlainInsert);
    } else {
      assert SettledUpTo(2, first.state, inp);
      PlainIsStuck(STEPS, first.state, inp, g2);
    }
  }

  /** Once the membership is there, no further attempt gets past it. */
  lemma PlainIsStuck(last: nat, s: State, inp: Inputs, g: Generated)
    requires last <= STEPS && SettledUpTo(3, s, inp)
    ensures Run(last, s, inp, g, PlainInsert) == Outcome(s, if last < 2 then last else 2)
  {
    hide Do, Settled;
    assert Settled(1, s, inp) && Settled(2, s, inp) && Settled(3, s, inp);
    SettledStep(1, s, inp, g, PlainInsert);
    SettledStep(2, s, inp, g, PlainInsert);
    SettledStep(3, s, inp, g, PlainInsert);
    if last >= 2 {
      assert RunFrom(3, last, s, inp, g, PlainInsert) == Outcome(s, 2);
      assert RunFrom(2, last, s, inp, g, PlainInsert) == Outcome(s, 2);
    }
  }

  /** No attempt got as far as adding the membership. */
  predicate StoppedEarly(s: State, attempts: seq<Attempt>, inp: Inputs) {
    attempts == [] ||
    (var before, a := attempts[..|attempts| - 1], attempts[|attempts| - 1];
     StoppedEarly(s, before, inp) &&
     Run(a.last, After(s, before, inp, PlainInsert), inp, a.generated, PlainInsert).done < 3)
  }

  lemma {:induction false} LateAttemptsSettle(s: State, attempts: seq<Attempt>, inp: Inputs)
    requires (forall a :: a in attempts ==> a.last <= STEPS) && !StoppedEarly(s, attempts, inp)
    ensures SettledUpTo(3, After(s, attempts, inp, PlainInsert), inp)
  {
    hide Run, Settled;
    var before, a := attempts[..|attempts| - 1], attempts[|attempts| - 1];
    var t := After(s, before, inp, PlainInsert);
    assert a in attempts;
    if StoppedEarly(s, before, inp) {
      LongRunSettles(a.last, t, inp, a.generated);
    } else {
      LateAttemptsSettle(s, before, inp);
      PlainIsStuck(a.last, t, inp, a.generated);
    }
  }

  lemma LongRunSettles(last: nat, s: State, inp: Inputs, g: Generated)
    requires Run(last, s, inp, g, PlainInsert).done >= 3
    ensures SettledUpTo(3, Run(last, s, inp, g, PlainInsert).state, inp)
  {
    hide RunFrom, Settled;
    RunSettles(1, last, s, inp, g, PlainInsert);
  }

  /** With the insert as the store has it, any number of attempts and a last run leave the
      store of one run if every attempt stopped before the membership; otherwise the
      last run fails there and leaves everything as it was. */
  lemma {:induction false} PlainAttempts(s: State, attempts: seq<Attempt>, inp: Inputs, g: Generated)
    returns (all: Generated)
    requires forall a :: a in attempts ==> a.last <= STEPS
    ensures Run(STEPS, After(s, attempts, inp, PlainInsert), inp, g, PlainInsert) ==
      if StoppedEarly(s, attempts, inp) then Run(STEPS, s, inp, all, PlainInsert)
      else Outcome(After(s, attempts, inp, PlainInsert), 2)
  {
    all := g;
    if !StoppedEarly(s, attempts, inp) {
      LateAttemptsSettle(s, attempts, inp);
      PlainIsStuck(STEPS, After(s, attempts, inp, PlainInsert), inp, g);
    } else if attempts != [] {
      hide Run, Mix;
      var before, a := attempts[..|attempts| - 1], attempts[|attempts| - 1];
      var t := After(s, before, inp, PlainInsert);
      assert a in attempts;
      PlainRerun(a.last, t, inp, a.generated, g);
      all := PlainAttempts(s, before, inp, Mix(a.generated, g, Run(a.last, t, inp, a.generated, PlainInsert).done));
    }
  }

  // ---------------------------------------------------------------- when a run completes, and what it leaves

  /** The steps that can fail find nothing in their way. */
  predicate Unobstructed(s: State, inp: Inputs, policy: Policy) {
    && ValidSlug(inp.slug)
    && (FindUser(s.users, inp.email).Some? || ValidUser(inp))
    && (FindOrg(s.orgs, inp.slug).Some? || (inp.orgName != "" && !DbNameTaken(s.orgs, "")))
    && (inp.slug in s.databases ==>
          HasTeam(s.databases[inp.slug].teams, TEAM) || !SchemaTaken(s.databases[inp.slug].teams, TEAM_SCHEMA))
    && !(policy == PlainInsert && Pair(s, inp).Some? && Pair(s, inp).value in s.members)
  }

  /** No membership mentions an identifier that is yet to be made up. */
  ghost predicate FreshIds(s: State, g: Generated) {
    forall p :: p in s.members ==> p.0 != g.user && p.1 != g.org
  }

  lemma PairAfterTwoSteps(s: State, inp: Inputs, g: Generated)
    requires FreshIds(s, g) && AddUser(s, inp, g).Some? && AddOrg(AddUser(s, inp, g).value, inp, g).Some?
    ensures var t := AddOrg(AddUser(s, inp, g).value, inp, g).value;
      && t.members == s.members && t.databases == s.databases && Pair(t, inp).Some?
      && (Pair(t, inp).value in s.members <==> Pair(s, inp).Some? && Pair(s, inp).value in s.members)
  {
    FindUserAppend(s.users, User(g.user, inp.email, inp.name, g.secret), inp.email);
    FindOrgAppend(s.orgs, Org(g.org, inp.orgName, inp.slug, ""), inp.slug);
    hide FindUser, FindOrg, DbNameTaken;
  }

  lemma DatabaseSteps(s: State, inp: Inputs, g: Generated, policy: Policy)
    requires Pair(s, inp).Some?
    ensures RunFrom(4, STEPS, s, inp, g, policy).done == STEPS <==>
      && ValidSlug(inp.slug)
      && (inp.slug in s.databases ==>
            HasTeam(s.databases[inp.slug].teams, TEAM) || !SchemaTaken(s.databases[inp.slug].teams, TEAM_SCHEMA))
  {
    hide ValidSlug, FindUser, FindOrg;
    if Do(4, s, inp, g, policy).Some? {
      var t4 := Do(4, s, inp, g, policy).value;
      assert t4.databases[inp.slug] == if inp.slug in s.databases then s.databases[inp.slug] else OrgDb([], {}, {});
      if Do(5, t4, inp, g, policy).Some? {
        var t5 := Do(5, t4, inp, g, policy).value;
        hide HasTeam, SchemaTaken;
        var t6 := Do(6, t5, inp, g, policy).value;
        assert RunFrom(7, STEPS, t6, inp, g, policy).done == STEPS;
        assert RunFrom(6, STEPS, t5, inp, g, policy).done == STEPS;
        assert RunFrom(5, STEPS, t4, inp, g, policy).done == STEPS;
      }
    }
  }

  /** A run completes exactly when nothing stands in its way at the start: the slug has the
      store's shape; the user exists or has a name, an address and a password that can be
      hashed; the organization exists or has a name and no other one holds the empty database
      name; no other team holds the schema name; and (with the plain insert) the membership is
      not there yet. */
  lemma CompletesExactlyWhen(s: State, inp: Inputs, g: Generated, policy: Policy)
    requires FreshIds(s, g)
    ensures Run(STEPS, s, inp, g, policy).done == STEPS <==> Unobstructed(s, inp, policy)
  {
    assert ValidSlug(inp.slug) ==> inp.slug != "";
    hide ValidSlug, HasTeam, SchemaTaken, DbNameTaken, FindUser, FindOrg, ValidUser;
    if AddUser(s, inp, g).None? { return; }
    var t1 := AddUser(s, inp, g).value;
    assert Run(STEPS, s, inp, g, policy) == RunFrom(2, STEPS, t1, inp, g, policy);
    if AddOrg(t1, inp, g).Some? {
      PairAfterTwoSteps(s, inp, g);
      var t2 := AddOrg(t1, inp, g).value;
      hide Pair;
      assert RunFrom(2, STEPS, t1, inp, g, policy) == RunFrom(3, STEPS, t2, inp, g, policy);
      if AddMember(t2, inp, policy).Some? {
        var t3 := AddMember(t2, inp, policy).value;
        assert Pair(t3, inp) == Pair(t2, inp) by { SamePair(t2, t3, inp); }
        DatabaseSteps(t3, inp, g, policy);
        assert RunFrom(3, STEPS, t2, inp, g, policy) == RunFrom(4, STEPS, t3, inp, g, policy);
      }
    }
  }

  /** The form calls the display name optional, but without one no user can be created: the
      setup of a fresh platform stops before its first step. A blank organization name stops
      it after that step. */
  lemma BlankNamesStopSetup(inp: Inputs, g: Generated, policy: Policy)
    ensures var empty := State([], [], map[], map[]);
      && (inp.name == "" ==> Run(STEPS, empty, inp, g, policy) == Outcome(empty, 0))
      && (inp == Inputs("a@b", "", [1, 2, 3, 4, 5, 6, 7, 8], "My Organization", "my-org") ==>
            Run(STEPS, empty, inp, g, policy).done == 0)
      && (ValidUser(inp) && inp.orgName == "" ==> Run(STEPS, empty, inp, g, policy).done == 1)
  {
    var empty := State([], [], map[], map[]);
    var one := [User(g.user, inp.email, inp.name, g.secret)];
    if ValidUser(inp) && inp.orgName == "" {
      assert empty.users + one == one;
      assert AddUser(empty, inp, g) == Some(empty.(users := one));
      assert AddOrg(empty.(users := one), inp, g) == None;
      assert RunFrom(2, STEPS, empty.(users := one), inp, g, policy).done == 1;
    }
  }

  lemma SamePair(s: State, t: State, inp: Inputs)
    requires s.users == t.users && s.orgs == t.orgs
    ensures Pair(s, inp) == Pair(t, inp)
  {
  }

  /** The unique columns of the three tables. */
  ghost predicate UniqueRows(s: State) {
    && (forall i, j :: 0 <= i < j < |s.users| ==> s.users[i].email != s.users[j].email)
    && (forall i, j :: 0 <= i < j < |s.orgs| ==> s.orgs[i].slug != s.orgs[j].slug && s.orgs[i].dbName != s.orgs[j].dbName)
    && (forall slug :: slug in s.databases ==> UniqueTeams(s.databases[slug].teams))
  }

  ghost predicate UniqueTeams(teams: seq<Team>) {
    forall i, j :: 0 <= i < j < |teams| ==> teams[i].slug != teams[j].slug && teams[i].schemaName != teams[j].schemaName
  }

  lemma {:induction false} UserFound(users: seq<User>, email: string)
    ensures FindUser(users, email).Some? <==> exists i :: 0 <= i < |users| && users[i].email == email
  {
    if users != [] {
      UserFound(users[1..], email);
      assert forall i :: 0 < i < |users| ==> users[i] == users[1..][i - 1];
      if FindUser(users[1..], email).Some? {
        var i :| 0 <= i < |users| - 1 && users[1..][i].email == email;
        assert users[i + 1].email == email;
      }
    }
  }

  lemma {:induction false} OrgFound(orgs: seq<Org>, slug: string)
    ensures FindOrg(orgs, slug).Some? <==> exists i :: 0 <= i < |orgs| && orgs[i].slug == slug
  {
    if orgs != [] {
      OrgFound(orgs[1..], slug);
      assert forall i :: 0 < i < |orgs| ==> orgs[i] == orgs[1..][i - 1];
      if FindOrg(orgs[1..], slug).Some? {
        var i :| 0 <= i < |orgs| - 1 && orgs[1..][i].slug == slug;
        assert orgs[i + 1].slug == slug;
      }
    }
  }

  lemma StepKeepsUnique(n: nat, s: State, inp: Inputs, g: Generated, policy: Policy)
    requires UniqueRows(s) && Do(n, s, inp, g, policy).Some?
    ensures UniqueRows(Do(n, s, inp, g, policy).value)
  {
    UserFound(s.users, inp.email);
    OrgFound(s.orgs, inp.slug);
    hide FindUser, FindOrg, ValidSlug, Pair;
    if n == 2 && FindOrg(s.orgs, inp.slug).None? {
      assert forall i :: 0 <= i < |s.orgs| ==> s.orgs[i] in s.orgs;
    }
    if n == 5 {
      var teams := s.databases[inp.slug].teams;
      assert forall i :: 0 <= i < |teams| ==> teams[i] in teams;
    }
  }

  lemma {:induction false} RunKeepsUnique(n: nat, last: nat, s: State, inp: Inputs, g: Generated, policy: Policy)
    requires 1 <= n <= last + 1 && UniqueRows(s)
    ensures UniqueRows(RunFrom(n, last, s, inp, g, policy).state)
    decreases last + 1 - n
  {
    hide Do, UniqueRows;
    if n <= last && Do(n, s, inp, g, policy).Some? {
      StepKeepsUnique(n, s, inp, g, policy);
      RunKeepsUnique(n + 1, last, Do(n, s, inp, g, policy).value, inp, g, policy);
    }
  }

  ghost predicate SingleUser(users: seq<User>, email: string) {
    exists i :: 0 <= i < |users| && users[i].email == email && forall j :: 0 <= j < |users| && users[j].email == email ==> j == i
  }

  ghost predicate SingleOrg(orgs: seq<Org>, slug: string) {
    exists i :: 0 <= i < |orgs| && orgs[i].slug == slug && forall j :: 0 <= j < |orgs| && orgs[j].slug == slug ==> j == i
  }

  ghost predicate SingleTeam(teams: seq<Team>, slug: string) {
    exists i :: 0 <= i < |teams| && teams[i].slug == slug && forall j :: 0 <= j < |teams| && teams[j].slug == slug ==> j == i
  }

  /** A completed run, after any earlier ones, leaves exactly one user for the email, one
      organization for the slug and one general team, with the databases provisioned. */
  lemma CompletedSetup(s: State, inp: Inputs, g: Generated, policy: Policy)
    requires UniqueRows(s) && Run(STEPS, s, inp, g, policy).done == STEPS
    ensures var t := Run(STEPS, s, inp, g, policy).state;
      && SingleUser(t.users, inp.email) && SingleOrg(t.orgs, inp.slug) && inp.slug in t.databases
      && var db := t.databases[inp.slug];
      && SingleTeam(db.teams, TEAM) && TEAM in db.teamDbs
      && Pair(t, inp).Some? && Pair(t, inp).value.0 in db.personalDbs
      && Pair(t, inp).value in t.members && t.members[Pair(t, inp).value] == "owner"
  {
    RunKeepsUnique(1, STEPS, s, inp, g, policy);
    RunSettles(1, STEPS, s, inp, g, policy);
    hide RunFrom;
    var t := Run(STEPS, s, inp, g, policy).state;
    AllSettled(t, inp);
    hide Settled;
    UserFound(t.users, inp.email);
    OrgFound(t.orgs, inp.slug);
    hide FindUser, FindOrg;
    OneTeam(t.databases[inp.slug].teams);
  }

  /** On an empty platform a completed setup writes exactly this. */
  lemma FreshSetupBuilds(inp: Inputs, g: Generated, policy: Policy)
    requires ValidUser(inp) && inp.orgName != "" && ValidSlug(inp.slug)
    ensures Run(STEPS, State([], [], map[], map[]), inp, g, policy) ==
      Outcome(State([User(g.user, inp.email, inp.name, g.secret)],
                    [Org(g.org, inp.orgName, inp.slug, "")],
                    map[(g.user, g.org) := "owner"],
                    map[inp.slug := OrgDb([Team(g.team, "general", "team_general")], {"general"}, {g.user})]), 7)
  {
    assert inp.slug != "";
    hide ValidUser, ValidSlug;
    var empty := State([], [], map[], map[]);
    var t2 := State([User(g.user, inp.email, inp.name, g.secret)], [Org(g.org, inp.orgName, inp.slug, "")], map[], map[]);
    var t3 := t2.(members := map[(g.user, g.org) := "owner"]);
    assert Run(STEPS, empty, inp, g, policy) == RunFrom(3, STEPS, t2, inp, g, policy) by { FirstTwoSteps(inp, g, policy); }
    assert Pair(t2, inp) == Some((g.user, g.org)) && Pair(t3, inp) == Some((g.user, g.org)) by {
      assert t2.users[0].email == inp.email && t2.orgs[0].slug == inp.slug;
    }
    hide FindUser, FindOrg, Pair;
    assert AddMember(t2, inp, policy) == Some(t3);
    FreshDatabases(t3, inp, g, policy);
    hide AddMember, AddTeam, ProvisionOrg, ProvisionTeam, ProvisionPersonal;
    assert RunFrom(3, STEPS, t2, inp, g, policy) == RunFrom(4, STEPS, t3, inp, g, policy);
  }

  lemma FirstTwoSteps(inp: Inputs, g: Generated, policy: Policy)
    requires ValidUser(inp) && inp.orgName != "" && inp.slug != ""
    ensures Run(STEPS, State([], [], map[], map[]), inp, g, policy) ==
      RunFrom(3, STEPS, State([User(g.user, inp.email, inp.name, g.secret)], [Org(g.org, inp.orgName, inp.slug, "")],
                              map[], map[]), inp, g, policy)
  {
    hide ValidUser;
    var empty := State([], [], map[], map[]);
    var t1 := empty.(users := [User(g.user, inp.email, inp.name, g.secret)]);
    var t2 := t1.(orgs := [Org(g.org, inp.orgName, inp.slug, "")]);
    assert empty.users + [User(g.user, inp.email, inp.name, g.secret)] == t1.users;
    assert t1.orgs + [Org(g.org, inp.orgName, inp.slug, "")] == t2.orgs;
    assert Do(1, empty, inp, g, policy) == Some(t1) && Do(2, t1, inp, g, policy) == Some(t2);
    hide Do;
    assert Run(STEPS, empty, inp, g, policy) == RunFrom(2, STEPS, t1, inp, g, policy);
  }

  lemma FreshDatabases(s: State, inp: Inputs, g: Generated, policy: Policy)
    requires s.databases == map[] && ValidSlug(inp.slug) && Pair(s, inp) == Some((g.user, g.org))
    ensures RunFrom(4, STEPS, s, inp, g, policy) ==
      Outcome(s.(databases := map[inp.slug := OrgDb([Team(g.team, TEAM, TEAM_SCHEMA)], {TEAM}, {g.user})]), 7)
  {
    hide ValidSlug, FindUser, FindOrg, Pair;
    var teams := [Team(g.team, TEAM, TEAM_SCHEMA)];
    var t4 := OneDatabase(s, inp.slug, OrgDb([], {}, {}));
    var t5 := OneDatabase(s, inp.slug, OrgDb(teams, {}, {}));
    var t6 := OneDatabase(s, inp.slug, OrgDb(teams, {TEAM}, {}));
    var t7 := OneDatabase(s, inp.slug, OrgDb(teams, {TEAM}, {g.user}));
    SamePair(s, t6, inp);
    Rewriting(s, inp.slug, OrgDb([], {}, {}), OrgDb(teams, {}, {}));
    Rewriting(s, inp.slug, OrgDb(teams, {}, {}), OrgDb(teams, {TEAM}, {}));
    Rewriting(s, inp.slug, OrgDb(teams, {TEAM}, {}), OrgDb(teams, {TEAM}, {g.user}));
    assert [] + teams == teams && {} + {TEAM} == {TEAM} && {} + {g.user} == {g.user};
    assert Do(4, s, inp, g, policy) == Some(t4);
    assert Do(5, t4, inp, g, policy) == Some(t5);
    assert Do(6, t5, inp, g, policy) == Some(t6);
    assert Do(7, t6, inp, g, policy) == Some(t7);
    hide Do;
    assert RunFrom(4, STEPS, s, inp, g, policy) == RunFrom(7, STEPS, t6, inp, g, policy);
  }

  function OneDatabase(s: State, slug: string, db: OrgDb): State { s.(databases := map[slug := db]) }

  lemma Rewriting(s: State, slug: string, before: OrgDb, after: OrgDb)
    ensures WithDb(OneDatabase(s, slug, before), slug, after) == OneDatabase(s, slug, after)
    ensures slug in OneDatabase(s, slug, before).databases && OneDatabase(s, slug, before).databases[slug] == before
  {
  }

  /** The users after: the same, or one more with the form's e-mail where there was none. */
  ghost predicate UsersAdded(s: State, t: State, inp: Inputs) {
    t.users == s.users || (FindUser(s.users, inp.email).None? && |t.users| == |s.users| + 1 && s.users <= t.users
                           && t.users[|s.users|].email == inp.email)
  }

  ghost predicate OrgsAdded(s: State, t: State, inp: Inputs) {
    t.orgs == s.orgs || (FindOrg(s.orgs, inp.slug).None? && |t.orgs| == |s.orgs| + 1 && s.orgs <= t.orgs
                         && t.orgs[|s.orgs|].slug == inp.slug)
  }

  /** Only the membership of the form's own user in its own organization may differ. */
  ghost predicate MembersAdded(s: State, t: State, inp: Inputs) {
    forall pair :: Pair(t, inp) != Some(pair) ==>
      (pair in s.members <==> pair in t.members) && (pair in s.members ==> t.members[pair] == s.members[pair])
  }

  ghost predicate DatabasesAdded(s: State, t: State, slug: string) {
    && (forall other :: other != slug ==> (other in s.databases <==> other in t.databases))
    && (forall other :: other != slug && other in s.databases ==> t.databases[other] == s.databases[other])
    && (slug in s.databases ==> slug in t.databases && DbOnlyAdds(s.databases[slug], t.databases[slug]))
  }

  /** Nothing of another user or organization is touched, and nothing is taken away. */
  ghost predicate OnlyAdds(s: State, t: State, inp: Inputs) {
    UsersAdded(s, t, inp) && OrgsAdded(s, t, inp) && MembersAdded(s, t, inp) && DatabasesAdded(s, t, inp.slug)
  }

  ghost predicate DbOnlyAdds(a: OrgDb, b: OrgDb) {
    a.teams <= b.teams && a.teamDbs <= b.teamDbs && a.personalDbs <= b.personalDbs
  }

  lemma StepOnlyAdds(n: nat, s: State, inp: Inputs, g: Generated, policy: Policy)
    requires Do(n, s, inp, g, policy).Some?
    ensures OnlyAdds(s, Do(n, s, inp, g, policy).value, inp)
  {
    hide ValidSlug, HasTeam, SchemaTaken, DbNameTaken, FindUser, FindOrg;
    if n == 3 { SamePair(s, Do(3, s, inp, g, policy).value, inp); }
    hide Pair;
  }

  /** A record that was found or added is found from then on, as the same record. */
  lemma RecordsStay(s: State, t: State, inp: Inputs)
    requires UsersAdded(s, t, inp) && OrgsAdded(s, t, inp)
    ensures t.users != s.users ==> FindUser(t.users, inp.email).Some?
    ensures t.orgs != s.orgs ==> FindOrg(t.orgs, inp.slug).Some?
    ensures Pair(s, inp).Some? ==> Pair(t, inp) == Pair(s, inp)
  {
    if t.users != s.users {
      FindUserAppend(s.users, t.users[|s.users|], inp.email);
      assert t.users == s.users + [t.users[|s.users|]];
    }
    if t.orgs != s.orgs {
      FindOrgAppend(s.orgs, t.orgs[|s.orgs|], inp.slug);
      assert t.orgs == s.orgs + [t.orgs[|s.orgs|]];
    }
    hide FindUser, FindOrg;
  }

  lemma AddsCompose(s: State, t: State, u: State, inp: Inputs)
    requires OnlyAdds(s, t, inp) && OnlyAdds(t, u, inp)
    ensures OnlyAdds(s, u, inp)
  {
    RecordsStay(s, t, inp);
    RecordsStay(t, u, inp);
    hide FindUser, FindOrg, Pair;
    assert MembersAdded(s, u, inp) by { hide UsersAdded, OrgsAdded, DatabasesAdded; }
    assert DatabasesAdded(s, u, inp.slug) by { hide UsersAdded, OrgsAdded, MembersAdded; }
  }

  lemma {:induction false} RunOnlyAdds(n: nat, last: nat, s: State, inp: Inputs, g: Generated, policy: Policy)
    requires 1 <= n <= last + 1
    ensures OnlyAdds(s, RunFrom(n, last, s, inp, g, policy).state, inp)
    decreases last + 1 - n
  {
    hide Do, FindUser, FindOrg;
    if n <= last && Do(n, s, inp, g, policy).Some? {
      var t := Do(n, s, inp, g, policy).value;
      hide OnlyAdds;
      StepOnlyAdds(n, s, inp, g, policy);
      RunOnlyAdds(n + 1, last, t, inp, g, policy);
      AddsCompose(s, t, RunFrom(n + 1, last, t, inp, g, policy).state, inp);
    }
  }

  /** The setup, wherever it stops and whatever was there, only adds what it is for. */
  lemma SetupOnlyAdds(last: nat, s: State, inp: Inputs, g: Generated, policy: Policy)
    ensures OnlyAdds(s, Run(last, s, inp, g, policy).state, inp)
  {
    RunOnlyAdds(1, last, s, inp, g, policy);
    hide OnlyAdds;
  }

  lemma AllSettled(t: State, inp: Inputs)
    requires SettledUpTo(STEPS, t, inp)
    ensures FindUser(t.users, inp.email).Some? && FindOrg(t.orgs, inp.slug).Some? && inp.slug in t.databases
    ensures Pair(t, inp).Some? && Pair(t, inp).value in t.members && t.members[Pair(t, inp).value] == "owner"
    ensures var db := t.databases[inp.slug]; HasTeam(db.teams, TEAM) && TEAM in db.teamDbs && Pair(t, inp).value.0 in db.personalDbs
  {
    hide FindUser, FindOrg, HasTeam, ValidSlug;
    assert Settled(1, t, inp) && Settled(2, t, inp) && Settled(3, t, inp) && Settled(4, t, inp);
    assert Settled(5, t, inp) && Settled(6, t, inp) && Settled(7, t, inp);
  }

  lemma OneTeam(teams: seq<Team>)
    requires HasTeam(teams, TEAM) && UniqueTeams(teams)
    ensures SingleTeam(teams, TEAM)
  {
    var t :| t in teams && t.slug == TEAM;
    var i :| 0 <= i < |teams| && teams[i] == t;
  }
}
