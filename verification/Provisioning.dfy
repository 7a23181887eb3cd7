/** SQLite platform setup: seven steps over the platform database and an organization's
    databases, any of which can be the last one before an interruption. */
module Provisioning {
  import opened Seqs

  type Id = nat

  datatype User = User(id: Id, email: string, name: string, secret: string)

  datatype Org = Org(id: Id, name: string, slug: string, dbName: string)

  datatype Team = Team(id: Id, slug: string, schemaName: string)

  /** An organization's database, with the team and personal databases beside it. */
  datatype OrgDb = OrgDb(teams: seq<Team>, teamDbs: set<string>, personalDbs: set<Id>)

  datatype State = State(users: seq<User>, orgs: seq<Org>, members: map<(Id, Id), string>, databases: map<string, OrgDb>)

  type Byte = b: int | 0 <= b < 256

  /** What the form asks for. */
  datatype Inputs = Inputs(email: string, name: string, password: seq<Byte>, orgName: string, slug: string)

  /** What one run makes up: identifiers and the salted password hash. */
  datatype Generated = Generated(user: Id, secret: string, org: Id, team: Id)

  /** How a membership is added: as the store does it, or as an upsert. */
  datatype Policy = PlainInsert | Upsert

  const TEAM := "general"
  const TEAM_SCHEMA := "team_general"
  const STEPS := 7

  /** The longest password the hash function takes. */
  const MAX_PASSWORD := 72

  function FindUser(users: seq<User>, email: string): Option<Id> {
    if users == [] then None
    else if users[0].email == email then Some(users[0].id)
    else FindUser(users[1..], email)
  }

  function FindOrg(orgs: seq<Org>, slug: string): Option<Id> {
    if orgs == [] then None
    else if orgs[0].slug == slug then Some(orgs[0].id)
    else FindOrg(orgs[1..], slug)
  }

  lemma {:induction false} FindUserAppend(users: seq<User>, u: User, email: string)
    ensures FindUser(users + [u], email) ==
      if FindUser(users, email).Some? then FindUser(users, email) else if u.email == email then Some(u.id) else None
  {
    if users != [] {
      FindUserAppend(users[1..], u, email);
      assert (users + [u])[1..] == users[1..] + [u];
    }
  }

  lemma {:induction false} FindOrgAppend(orgs: seq<Org>, o: Org, slug: string)
    ensures FindOrg(orgs + [o], slug) ==
      if FindOrg(orgs, slug).Some? then FindOrg(orgs, slug) else if o.slug == slug then Some(o.id) else None
  {
    if orgs != [] {
      FindOrgAppend(orgs[1..], o, slug);
      assert (orgs + [o])[1..] == orgs[1..] + [o];
    }
  }

  predicate HasTeam(teams: seq<Team>, slug: string) { exists t :: t in teams && t.slug == slug }

  predicate DbNameTaken(orgs: seq<Org>, dbName: string) { exists o :: o in orgs && o.dbName == dbName }

  predicate SchemaTaken(teams: seq<Team>, schemaName: string) { exists t :: t in teams && t.schemaName == schemaName }

  predicate IsAlnum(c: char) { 'a' <= c <= 'z' || 'A' <= c <= 'Z' || '0' <= c <= '9' }

  predicate ValidSlug(slug: string) {
    slug != "" && IsAlnum(slug[0]) && forall i :: 0 <= i < |slug| ==> IsAlnum(slug[i]) || slug[i] == '_' || slug[i] == '-'
  }

  /** The records of the administrator and the organization, once both exist. */
  function Pair(s: State, inp: Inputs): Option<(Id, Id)> {
    match (FindUser(s.users, inp.email), FindOrg(s.orgs, inp.slug))
    case (Some(u), Some(o)) => Some((u, o))
    case _ => None
  }

  /** Whether a new user passes hashing and the checks of the user table. */
  predicate ValidUser(inp: Inputs) { |inp.password| <= MAX_PASSWORD && inp.email != "" && inp.name != "" }

  function AddUser(s: State, inp: Inputs, g: Generated): Option<State> {
    if FindUser(s.users, inp.email).Some? then Some(s)
    else if !ValidUser(inp) then None
    else Some(s.(users := s.users + [User(g.user, inp.email, inp.name, g.secret)]))
  }

  /** Name and slug must not be empty; the database name column is unique and setup leaves it empty. */
  function AddOrg(s: State, inp: Inputs, g: Generated): Option<State> {
    if FindOrg(s.orgs, inp.slug).Some? then Some(s)
    else if inp.orgName == "" || inp.slug == "" || DbNameTaken(s.orgs, "") then None
    else Some(s.(orgs := s.orgs + [Org(g.org, inp.orgName, inp.slug, "")]))
  }

  function AddMember(s: State, inp: Inputs, policy: Policy): Option<State> {
    match Pair(s, inp)
    case None => None
    case Some(pair) =>
      if pair in s.members && policy == PlainInsert then None
      else Some(s.(members := s.members[pair := "owner"]))
  }

  function ProvisionOrg(s: State, slug: string): Option<State> {
    if !ValidSlug(slug) then None
    else if slug in s.databases then Some(s)
    else Some(s.(databases := s.databases[slug := OrgDb([], {}, {})]))
  }

  function WithDb(s: State, slug: string, db: OrgDb): State { s.(databases := s.databases[slug := db]) }

  function AddTeam(s: State, slug: string, g: Generated): Option<State> {
    if slug !in s.databases then None
    else
      var db := s.databases[slug];
      if HasTeam(db.teams, TEAM) then Some(s)
      else if SchemaTaken(db.teams, TEAM_SCHEMA) then None
      else Some(WithDb(s, slug, db.(teams := db.teams + [Team(g.team, TEAM, TEAM_SCHEMA)])))
  }

  function ProvisionTeam(s: State, slug: string): Option<State> {
    if slug !in s.databases then None
    else
      var db := s.databases[slug];
      Some(WithDb(s, slug, db.(teamDbs := db.teamDbs + {TEAM})))
  }

  function ProvisionPersonal(s: State, inp: Inputs): Option<State> {
    if inp.slug !in s.databases || Pair(s, inp).None? then None
    else
      var db := s.databases[inp.slug];
      Some(WithDb(s, inp.slug, db.(personalDbs := db.personalDbs + {Pair(s, inp).value.0})))
  }

  /** Step n of the run; nothing when it fails, and then the store is as before. */
  function Do(n: nat, s: State, inp: Inputs, g: Generated, policy: Policy): Option<State> {
    if n == 1 then AddUser(s, inp, g)
    else if n == 2 then AddOrg(s, inp, g)
    else if n == 3 then AddMember(s, inp, policy)
    else if n == 4 then ProvisionOrg(s, inp.slug)
    else if n == 5 then AddTeam(s, inp.slug, g)
    else if n == 6 then ProvisionTeam(s, inp.slug)
    else if n == 7 then ProvisionPersonal(s, inp)
    else None
  }

  /** The store a run leaves and how many of the seven steps are behind it. */
  datatype Outcome = Outcome(state: State, done: nat)

  /** Steps n to last, stopping at the first failure. */
  function RunFrom(n: nat, last: nat, s: State, inp: Inputs, g: Generated, policy: Policy): (o: Outcome)
    requires 1 <= n <= last + 1
    ensures n - 1 <= o.done <= last
    decreases last + 1 - n
  {
    if n > last then Outcome(s, last)
    else
      match Do(n, s, inp, g, policy)
      case None => Outcome(s, n - 1)
      case Some(t) => RunFrom(n + 1, last, t, inp, g, policy)
  }

  function Run(last: nat, s: State, inp: Inputs, g: Generated, policy: Policy): Outcome {
    RunFrom(1, last, s, inp, g, policy)
  }

  class PlatformStore {
    var users: seq<User>
    var orgs: seq<Org>
    var members: map<(Id, Id), string>
    var databases: map<string, OrgDb>

    constructor ()
      ensures Contents() == State([], [], map[], map[])
    {
      users, orgs, members, databases := [], [], map[], map[];
    }

    function Contents(): State
      reads this
    {
      State(users, orgs, members, databases)
    }

    method GetByEmail(email: string) returns (id: Option<Id>)
      ensures id == FindUser(users, email)
    {
      var i := 0;
      while i < |users| && users[i].email != email
        invariant 0 <= i <= |users| && FindUser(users[i..], email) == FindUser(users, email)
      {
        i := i + 1;
      }
      id := if i < |users| then Some(users[i].id) else None;
    }

    method GetBySlug(slug: string) returns (id: Option<Id>)
      ensures id == FindOrg(orgs, slug)
    {
      var i := 0;
      while i < |orgs| && orgs[i].slug != slug
        invariant 0 <= i <= |orgs| && FindOrg(orgs[i..], slug) == FindOrg(orgs, slug)
      {
        i := i + 1;
      }
      id := if i < |orgs| then Some(orgs[i].id) else None;
    }

    /** The setup, interrupted after the given number of steps (seven of them is a whole run). */
    method Setup(inp: Inputs, g: Generated, policy: Policy, last: nat) returns (done: nat)
      requires last <= STEPS
      modifies this
      ensures Outcome(Contents(), done) == Run(last, old(Contents()), inp, g, policy)
    {
      if last == 0 { return 0; }
      // Step 1: the administrator.
      var userID := g.user;
      var existingUser := GetByEmail(inp.email);
      if existingUser.Some? {
        userID := existingUser.value;
      } else {
        if |inp.password| > MAX_PASSWORD { return 0; }
        if inp.email == "" || inp.name == "" { return 0; }
        FindUserAppend(users, User(userID, inp.email, inp.name, g.secret), inp.email);
        users := users + [User(userID, inp.email, inp.name, g.secret)];
      }
      done := SetupOrg(inp, g, policy, last, userID);
    }

    method SetupOrg(inp: Inputs, g: Generated, policy: Policy, last: nat, userID: Id) returns (done: nat)
      requires 1 <= last <= STEPS && FindUser(users, inp.email) == Some(userID)
      modifies this
      ensures Outcome(Contents(), done) == RunFrom(2, last, old(Contents()), inp, g, policy)
    {
      if last == 1 { return 1; }
      // Step 2: the organization.
      var orgID := g.org;
      var existingOrg := GetBySlug(inp.slug);
      if existingOrg.Some? {
        orgID := existingOrg.value;
      } else {
        if inp.orgName == "" || inp.slug == "" { return 1; }
        if DbNameTaken(orgs, "") { return 1; }
        FindOrgAppend(orgs, Org(orgID, inp.orgName, inp.slug, ""), inp.slug);
        orgs := orgs + [Org(orgID, inp.orgName, inp.slug, "")];
      }
      if last == 2 { return 2; }
      // Step 3: the membership.
      if (userID, orgID) in members && policy == PlainInsert { return 2; }
      members := members[(userID, orgID) := "owner"];
      done := SetupDatabases(inp, g, policy, last, userID);
    }

    method SetupDatabases(inp: Inputs, g: Generated, policy: Policy, last: nat, userID: Id) returns (done: nat)
      requires 3 <= last <= STEPS && Pair(Contents(), inp).Some? && Pair(Contents(), inp).value.0 == userID
      modifies this
      ensures Outcome(Contents(), done) == RunFrom(4, last, old(Contents()), inp, g, policy)
    {
      hide HasTeam, SchemaTaken, ValidSlug, FindUser, FindOrg;
      if last == 3 { return 3; }
      // Step 4: the organization's database.
      if !ValidSlug(inp.slug) { return 3; }
      if inp.slug !in databases { databases := databases[inp.slug := OrgDb([], {}, {})]; }
      if last == 4 { return 4; }
      // Step 5: the general team.
      var db := databases[inp.slug];
      if !HasTeam(db.teams, TEAM) {
        if SchemaTaken(db.teams, TEAM_SCHEMA) { return 4; }
        db := db.(teams := db.teams + [Team(g.team, TEAM, TEAM_SCHEMA)]);
        databases := databases[inp.slug := db];
      }
      if last == 5 { return 5; }
      // Step 6: the team's database.
      db := db.(teamDbs := db.teamDbs + {TEAM});
      databases := databases[inp.slug := db];
      if last == 6 { return 6; }
      // Step 7: the administrator's personal database.
      db := db.(personalDbs := db.personalDbs + {userID});
      databases := databases[inp.slug := db];
      done := 7;
    }
  }
}
