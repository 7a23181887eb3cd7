/** The restore command's argument loop, its mapping arguments and option validation. */
module RestoreArgs {
  import opened Seqs

  datatype Flag =
    | DryRun | Confirm | ResetTarget | EnableJobs | IncludeTransient | Json
    | Passphrase | MapOrg | MapTeam | MapUser | Help | Positional

  function Word(f: Flag): string {
    match f
    case DryRun => "--dry-run"
    case Confirm => "--confirm"
    case ResetTarget => "--reset-target"
    case EnableJobs => "--enable-scheduled-jobs"
    case IncludeTransient => "--include-transient"
    case Json => "--json"
    case Passphrase => "--passphrase"
    case MapOrg => "--map-org"
    case MapTeam => "--map-team"
    case MapUser => "--map-user"
    case Help => "--help"
    case Positional => ""
  }

  const FLAGS: seq<Flag> :=
    [DryRun, Confirm, ResetTarget, EnableJobs, IncludeTransient, Json, Passphrase, MapOrg, MapTeam, MapUser, Help]

  /** The first of the flags that the argument spells. */
  function FindFlag(arg: string, flags: seq<Flag>): Flag {
    if flags == [] then Positional
    else if arg == Word(flags[0]) then flags[0]
    else FindFlag(arg, flags[1..])
  }

  /** The argument switch; everything that is no flag is positional. */
  function Classify(arg: string): Flag {
    if arg == "-h" then Help else FindFlag(arg, FLAGS)
  }

  type Mapping = map<string, string>

  datatype Maps = Maps(org: Mapping, team: Mapping, user: Mapping)

  const NO_MAPS := Maps(map[], map[], map[])

  datatype Toggles = Toggles(
    dryRun: bool, confirm: bool, resetTarget: bool, enableScheduledJobs: bool, includeTransient: bool, jsonOut: bool)

  const ALL_OFF := Toggles(false, false, false, false, false, false)

  datatype Options = Options(archivePath: string, on: Toggles, passphrase: string, maps: Maps)

  const NO_OPTIONS := Options("", ALL_OFF, "", NO_MAPS)

  datatype Error = NeedsValue | BadMapping | HelpNotAlone | Unexpected | NoArchive | DryRunAndConfirm | NeedsConfirm

  datatype Result = Ok(opts: Options) | Err(error: Error)

  /** Exactly two non-empty parts around one slash. */
  predicate TwoParts(value: string) {
    var cut := IndexOf(value, '/');
    cut < |value| && cut > 0 && value[cut + 1..] != "" && '/' !in value[cut + 1..]
  }

  /** The maps after a mapping argument, or nothing when its shape is wrong. */
  function AddMapping(maps: Maps, flag: Flag, value: string): Option<Maps> {
    var cut := IndexOf(value, ':');
    if cut == |value| || cut == 0 || cut + 1 == |value| then None
    else
      var from, to := value[..cut], value[cut + 1..];
      match flag
      case MapOrg => if '/' in from || '/' in to then None else Some(maps.(org := maps.org[from := to]))
      case MapTeam => if !TwoParts(from) || !TwoParts(to) then None else Some(maps.(team := maps.team[from := to]))
      case MapUser => if !TwoParts(from) || !TwoParts(to) then None else Some(maps.(user := maps.user[from := to]))
      case _ => Some(maps)
  }

  function Finish(opts: Options): Result {
    if opts.archivePath == "" then Err(NoArchive)
    else if opts.on.dryRun && opts.on.confirm then Err(DryRunAndConfirm)
    else Ok(opts)
  }

  /** What the next argument does: it takes one or two arguments and updates the options,
      or ends the loop with an error. */
  datatype Step = Taken(n: nat, opts: Options) | Rejected(error: Error)

  predicate IsSwitch(flag: Flag) {
    flag.DryRun? || flag.Confirm? || flag.ResetTarget? || flag.EnableJobs? || flag.IncludeTransient? || flag.Json?
  }

  function Set(on: Toggles, flag: Flag): Toggles {
    match flag
    case DryRun => on.(dryRun := true)
    case Confirm => on.(confirm := true)
    case ResetTarget => on.(resetTarget := true)
    case EnableJobs => on.(enableScheduledJobs := true)
    case IncludeTransient => on.(includeTransient := true)
    case Json => on.(jsonOut := true)
    case _ => on
  }

  function Head(args: seq<string>, opts: Options): (step: Step)
    requires args != []
    ensures step.Taken? ==> 1 <= step.n <= |args|
  {
    var flag := Classify(args[0]);
    if IsSwitch(flag) then Taken(1, opts.(on := Set(opts.on, flag)))
    else if flag == Help then Rejected(HelpNotAlone)
    else if flag == Positional then
      if opts.archivePath != "" then Rejected(Unexpected) else Taken(1, opts.(archivePath := args[0]))
    else if |args| < 2 then Rejected(NeedsValue)
    else if flag == Passphrase then Taken(2, opts.(passphrase := args[1]))
    else
      match AddMapping(opts.maps, flag, args[1])
      case None => Rejected(BadMapping)
      case Some(maps) => Taken(2, opts.(maps := maps))
  }

  /** Parsing the remaining arguments with the options collected so far. */
  function ParseRest(args: seq<string>, opts: Options): Result {
    if args == [] then Finish(opts) else
    match Head(args, opts)
    case Rejected(e) => Err(e)
    case Taken(n, more) => ParseRest(args[n..], more)
  }

  method Parse(args: seq<string>) returns (r: Result)
    ensures r == ParseRest(args, NO_OPTIONS)
  {
    var opts := NO_OPTIONS;
    var i := 0;
    while i < |args|
      invariant 0 <= i <= |args|
      invariant ParseRest(args[i..], opts) == ParseRest(args, NO_OPTIONS)
    {
      var rest := args[i..];
      assert rest[1..] == args[i + 1..];
      assert i + 2 <= |args| ==> rest[2..] == args[i + 2..];
      var flag := Classify(args[i]);
      hide Classify, AddMapping, Finish;
      match flag {
        case DryRun => opts := opts.(on := opts.on.(dryRun := true));
        case Confirm => opts := opts.(on := opts.on.(confirm := true));
        case ResetTarget => opts := opts.(on := opts.on.(resetTarget := true));
        case EnableJobs => opts := opts.(on := opts.on.(enableScheduledJobs := true));
        case IncludeTransient => opts := opts.(on := opts.on.(includeTransient := true));
        case Json => opts := opts.(on := opts.on.(jsonOut := true));
        case Passphrase =>
          if i + 1 == |args| { return Err(NeedsValue); }
          opts := opts.(passphrase := args[i + 1]);
          i := i + 1;
        case Help => return Err(HelpNotAlone);
        case Positional =>
          if opts.archivePath != "" { return Err(Unexpected); }
          opts := opts.(archivePath := args[i]);
        case _ =>
          if i + 1 == |args| { return Err(NeedsValue); }
          var added := AddMapping(opts.maps, flag, args[i + 1]);
          if added.None? { return Err(BadMapping); }
          opts := opts.(maps := added.value);
          i := i + 1;
      }
      i := i + 1;
    }
    r := Finish(opts);
  }

  function Validate(opts: Options): Result {
    if !opts.on.dryRun && !opts.on.confirm then Err(NeedsConfirm) else Ok(opts)
  }

  // ---------------------------------------------------------------- the image of the parser

  predicate OrgPair(from: string, to: string) {
    from != "" && to != "" && ':' !in from && '/' !in from && '/' !in to
  }

  predicate ScopedPair(from: string, to: string) {
    ':' !in from && TwoParts(from) && TwoParts(to)
  }

  ghost predicate GoodOrgs(m: Mapping) { forall k :: k in m ==> OrgPair(k, m[k]) }

  ghost predicate GoodScoped(m: Mapping) { forall k :: k in m ==> ScopedPair(k, m[k]) }

  ghost predicate GoodMaps(maps: Maps) {
    GoodOrgs(maps.org) && GoodScoped(maps.team) && GoodScoped(maps.user)
  }

  /** What holds of the options collected so far. */
  ghost predicate GoodSoFar(opts: Options) {
    GoodMaps(opts.maps) && (opts.archivePath != "" ==> Classify(opts.archivePath) == Positional)
  }

  /** Options that some argument list produces. */
  ghost predicate WellFormed(opts: Options) {
    && GoodMaps(opts.maps) && opts.archivePath != "" && Classify(opts.archivePath) == Positional
    && !(opts.on.dryRun && opts.on.confirm)
  }

  lemma AddMappingKeepsGood(maps: Maps, flag: Flag, value: string)
    requires GoodMaps(maps)
    ensures AddMapping(maps, flag, value).Some? ==> GoodMaps(AddMapping(maps, flag, value).value)
  {
    hide TwoParts;
  }

  /** Only a mapping argument changes the maps, only a positional one the archive path. */
  lemma HeadFrame(args: seq<string>, opts: Options)
    requires args != [] && Head(args, opts).Taken?
    ensures var o := Head(args, opts).opts;
      && (o.maps == opts.maps || (|args| > 1 && AddMapping(opts.maps, Classify(args[0]), args[1]) == Some(o.maps)))
      && (o.archivePath == opts.archivePath || (o.archivePath == args[0] && Classify(args[0]) == Positional))
  {
    hide Classify, AddMapping, Set;
  }

  lemma HeadKeepsGood(args: seq<string>, opts: Options)
    requires args != [] && GoodSoFar(opts)
    ensures Head(args, opts).Taken? ==> GoodSoFar(Head(args, opts).opts)
  {
    hide Head, Classify, AddMapping, GoodMaps;
    if Head(args, opts).Taken? {
      HeadFrame(args, opts);
      if |args| > 1 { AddMappingKeepsGood(opts.maps, Classify(args[0]), args[1]); }
    }
  }

  lemma {:induction false} ParsedIsWellFormed(args: seq<string>, opts: Options)
    requires GoodSoFar(opts)
    ensures ParseRest(args, opts).Ok? ==> WellFormed(ParseRest(args, opts).opts)
  {
    hide Classify, GoodMaps, Head;
    if args != [] && Head(args, opts).Taken? {
      HeadKeepsGood(args, opts);
      ParsedIsWellFormed(args[Head(args, opts).n..], Head(args, opts).opts);
    }
  }

  /** Parsing and validation both succeeding means exactly one of dry-run and confirm. */
  lemma AcceptedChoosesOneMode(args: seq<string>)
    requires ParseRest(args, NO_OPTIONS).Ok? && Validate(ParseRest(args, NO_OPTIONS).opts).Ok?
    ensures ParseRest(args, NO_OPTIONS).opts.on.dryRun != ParseRest(args, NO_OPTIONS).opts.on.confirm
  {
    ParsedIsWellFormed(args, NO_OPTIONS);
  }

  // ---------------------------------------------------------------- printing and parsing back

  type Pairs = seq<(string, string)>

  /** The map a list of pairs builds, later pairs winning. */
  function MapOf(pairs: Pairs): Mapping {
    if pairs == [] then map[] else MapOf(pairs[..|pairs| - 1])[pairs[|pairs| - 1].0 := pairs[|pairs| - 1].1]
  }

  function MapArgs(flag: Flag, pairs: Pairs): seq<string> {
    if pairs == [] then []
    else MapArgs(flag, pairs[..|pairs| - 1]) + [Word(flag), pairs[|pairs| - 1].0 + ":" + pairs[|pairs| - 1].1]
  }

  function Switch(on: bool, flag: Flag): seq<string> { if on then [Word(flag)] else [] }

  function Secret(value: string): seq<string> { if value == "" then [] else [Word(Passphrase), value] }

  /** The six switches that are on, before the remaining arguments. */
  function Switches(on: Toggles, rest: seq<string>): seq<string> {
    Switch(on.dryRun, DryRun) + (Switch(on.confirm, Confirm) +
    (Switch(on.resetTarget, ResetTarget) + (Switch(on.enableScheduledJobs, EnableJobs) +
    (Switch(on.includeTransient, IncludeTransient) + (Switch(on.jsonOut, Json) + rest)))))
  }

  /** The options as arguments, the maps listed in any order. */
  function Print(opts: Options, orgs: Pairs, teams: Pairs, users: Pairs): seq<string> {
    [opts.archivePath] + Switches(opts.on,
      Secret(opts.passphrase) + (MapArgs(MapOrg, orgs) + (MapArgs(MapTeam, teams) + MapArgs(MapUser, users))))
  }

  lemma WordsDiffer(f: Flag, g: Flag)
    requires Word(f) == Word(g)
    ensures f == g
  {
    assert "--dry-run"[2] == 'd' && "--confirm"[2] == 'c' && "--reset-target"[2] == 'r';
    assert "--enable-scheduled-jobs"[2] == 'e' && "--include-transient"[2] == 'i' && "--json"[2] == 'j';
    assert "--passphrase"[2] == 'p' && "--map-org"[6] == 'o' && "--map-team"[6] == 't' && "--map-user"[6] == 'u';
    assert "--help"[2] == 'h' && "--map-org"[2] == "--map-team"[2] == "--map-user"[2] == 'm';
  }

  lemma {:induction false} FindsWord(f: Flag, flags: seq<Flag>)
    requires f in flags
    ensures FindFlag(Word(f), flags) == f
  {
    if Word(f) == Word(flags[0]) {
      WordsDiffer(f, flags[0]);
    } else {
      hide Word;
      FindsWord(f, flags[1..]);
    }
  }

  lemma WordsClassify(f: Flag)
    requires f != Positional
    ensures Classify(Word(f)) == f
  {
    FindsWord(f, FLAGS);
    hide FindFlag;
    assert |Word(f)| > 2;
  }

  predicate GoodPair(flag: Flag, from: string, to: string) {
    match flag
    case MapOrg => OrgPair(from, to)
    case MapTeam => ScopedPair(from, to)
    case MapUser => ScopedPair(from, to)
    case _ => false
  }

  ghost predicate GoodPairs(flag: Flag, pairs: Pairs) {
    forall p :: p in pairs ==> GoodPair(flag, p.0, p.1)
  }

  function MapOfFlag(maps: Maps, flag: Flag): Mapping {
    match flag
    case MapOrg => maps.org
    case MapTeam => maps.team
    case MapUser => maps.user
    case _ => map[]
  }

  function WithMap(maps: Maps, flag: Flag, m: Mapping): Maps {
    match flag
    case MapOrg => maps.(org := m)
    case MapTeam => maps.(team := m)
    case MapUser => maps.(user := m)
    case _ => maps
  }

  lemma GoodPairIsAdded(maps: Maps, flag: Flag, from: string, to: string)
    requires GoodPair(flag, from, to)
    ensures AddMapping(maps, flag, from + ":" + to) == Some(WithMap(maps, flag, MapOfFlag(maps, flag)[from := to]))
  {
    CutRejoins(from, ':', to);
  }

  lemma OneMappingParses(flag: Flag, from: string, to: string, rest: seq<string>, opts: Options)
    requires GoodPair(flag, from, to)
    ensures ParseRest([Word(flag), from + ":" + to] + rest, opts) ==
            ParseRest(rest, opts.(maps := WithMap(opts.maps, flag, MapOfFlag(opts.maps, flag)[from := to])))
  {
    var args := [Word(flag), from + ":" + to] + rest;
    WordsClassify(flag);
    GoodPairIsAdded(opts.maps, flag, from, to);
    hide Classify, AddMapping, Word;
    assert args[2..] == rest;
  }

  lemma MapsJoin(base: Mapping, pairs: Pairs)
    requires pairs != []
    ensures (base + MapOf(pairs[..|pairs| - 1]))[pairs[|pairs| - 1].0 := pairs[|pairs| - 1].1] == base + MapOf(pairs)
  {
  }

  lemma {:induction false} MapArgsParse(flag: Flag, pairs: Pairs, rest: seq<string>, opts: Options)
    requires GoodPairs(flag, pairs) && (flag.MapOrg? || flag.MapTeam? || flag.MapUser?)
    ensures ParseRest(MapArgs(flag, pairs) + rest, opts) ==
            ParseRest(rest, opts.(maps := WithMap(opts.maps, flag, MapOfFlag(opts.maps, flag) + MapOf(pairs))))
  {
    if pairs == [] {
      assert MapArgs(flag, pairs) + rest == rest;
      assert MapOfFlag(opts.maps, flag) + MapOf(pairs) == MapOfFlag(opts.maps, flag);
    } else {
      hide ParseRest, Word, GoodPair;
      var init, p := pairs[..|pairs| - 1], pairs[|pairs| - 1];
      var tail := [Word(flag), p.0 + ":" + p.1] + rest;
      assert p in pairs;
      MapArgsParse(flag, init, tail, opts);
      assert MapArgs(flag, pairs) + rest == MapArgs(flag, init) + tail;
      hide MapArgs;
      OneMappingParses(flag, p.0, p.1, rest, opts.(maps := WithMap(opts.maps, flag, MapOfFlag(opts.maps, flag) + MapOf(init))));
      MapsJoin(MapOfFlag(opts.maps, flag), pairs);
    }
  }

  lemma SwitchParses(on: bool, flag: Flag, rest: seq<string>, opts: Options)
    requires IsSwitch(flag)
    ensures ParseRest(Switch(on, flag) + rest, opts) == ParseRest(rest, if on then opts.(on := Set(opts.on, flag)) else opts)
  {
    if on {
      WordsClassify(flag);
      hide Classify, Word, Set;
      assert (Switch(on, flag) + rest)[1..] == rest;
    } else {
      assert Switch(on, flag) + rest == rest;
    }
  }

  lemma PassphraseParses(value: string, rest: seq<string>, opts: Options)
    requires opts.passphrase == ""
    ensures ParseRest(Secret(value) + rest, opts) ==
            ParseRest(rest, opts.(passphrase := value))
  {
    if value == "" {
      assert [] + rest == rest;
    } else {
      WordsClassify(Passphrase);
      hide Classify, Word;
      assert ([Word(Passphrase), value] + rest)[2..] == rest;
    }
  }

  lemma NothingLeft(opts: Options)
    ensures ParseRest([], opts) == Finish(opts)
  {
    hide Head;
  }

  lemma MapsParse(maps: Maps, orgs: Pairs, teams: Pairs, users: Pairs, start: Options)
    requires GoodPairs(MapOrg, orgs) && GoodPairs(MapTeam, teams) && GoodPairs(MapUser, users)
    requires maps == Maps(MapOf(orgs), MapOf(teams), MapOf(users)) && start.maps == NO_MAPS
    ensures ParseRest(MapArgs(MapOrg, orgs) + (MapArgs(MapTeam, teams) + MapArgs(MapUser, users)), start) ==
            Finish(start.(maps := maps))
  {
    hide ParseRest, Finish, Word, MapArgs, GoodPairs, MapOf;
    var u := MapArgs(MapUser, users);
    assert u + [] == u;
    FirstMapParses(MapOrg, orgs, MapArgs(MapTeam, teams) + u, start);
    var o := start.(maps := NO_MAPS.(org := maps.org));
    FirstMapParses(MapTeam, teams, u, o);
    FirstMapParses(MapUser, users, [], o.(maps := o.maps.(team := maps.team)));
    NothingLeft(start.(maps := maps));
  }

  lemma FirstMapParses(flag: Flag, pairs: Pairs, rest: seq<string>, opts: Options)
    requires GoodPairs(flag, pairs) && (flag.MapOrg? || flag.MapTeam? || flag.MapUser?)
    requires MapOfFlag(opts.maps, flag) == map[]
    ensures ParseRest(MapArgs(flag, pairs) + rest, opts) ==
            ParseRest(rest, opts.(maps := WithMap(opts.maps, flag, MapOf(pairs))))
  {
    hide ParseRest, MapArgs, MapOf, GoodPairs;
    MapArgsParse(flag, pairs, rest, opts);
    assert map[] + MapOf(pairs) == MapOf(pairs);
  }

  lemma SwitchesParse(on: Toggles, rest: seq<string>, start: Options)
    requires start.on == ALL_OFF
    ensures ParseRest(Switches(on, rest), start) == ParseRest(rest, start.(on := on))
  {
    hide ParseRest, Switch;
    var a6 := Switch(on.jsonOut, Json) + rest;
    var a5 := Switch(on.includeTransient, IncludeTransient) + a6;
    var a4 := Switch(on.enableScheduledJobs, EnableJobs) + a5;
    var a3 := Switch(on.resetTarget, ResetTarget) + a4;
    var a2 := Switch(on.confirm, Confirm) + a3;
    SwitchParses(on.dryRun, DryRun, a2, start);
    var t1 := ALL_OFF.(dryRun := on.dryRun);
    SwitchParses(on.confirm, Confirm, a3, start.(on := t1));
    var t2 := t1.(confirm := on.confirm);
    SwitchParses(on.resetTarget, ResetTarget, a4, start.(on := t2));
    var t3 := t2.(resetTarget := on.resetTarget);
    SwitchParses(on.enableScheduledJobs, EnableJobs, a5, start.(on := t3));
    var t4 := t3.(enableScheduledJobs := on.enableScheduledJobs);
    SwitchParses(on.includeTransient, IncludeTransient, a6, start.(on := t4));
    SwitchParses(on.jsonOut, Json, rest, start.(on := t4.(includeTransient := on.includeTransient)));
  }

  lemma ArchiveParses(path: string, rest: seq<string>)
    requires path != "" && Classify(path) == Positional
    ensures ParseRest([path] + rest, NO_OPTIONS) == ParseRest(rest, NO_OPTIONS.(archivePath := path))
  {
    var args := [path] + rest;
    assert args[0] == path && args[1..] == rest;
    hide Classify;
  }

  /** Well-formed options print, in any order of their mappings, to arguments that parse
      back to exactly the same options. */
  lemma PrintedOptionsParseBack(opts: Options, orgs: Pairs, teams: Pairs, users: Pairs)
    requires WellFormed(opts)
    requires GoodPairs(MapOrg, orgs) && GoodPairs(MapTeam, teams) && GoodPairs(MapUser, users)
    requires opts.maps == Maps(MapOf(orgs), MapOf(teams), MapOf(users))
    ensures ParseRest(Print(opts, orgs, teams, users), NO_OPTIONS) == Ok(opts)
  {
    hide MapOf, GoodPairs, MapArgs, Secret, Switches, GoodMaps, Classify, ParseRest;
    var m := MapArgs(MapOrg, orgs) + (MapArgs(MapTeam, teams) + MapArgs(MapUser, users));
    var v := Secret(opts.passphrase) + m;
    ArchiveParses(opts.archivePath, Switches(opts.on, v));
    SwitchesParse(opts.on, v, NO_OPTIONS.(archivePath := opts.archivePath));
    var o := opts.(passphrase := "", maps := NO_MAPS);
    PassphraseParses(opts.passphrase, m, o);
    MapsParse(opts.maps, orgs, teams, users, o.(passphrase := opts.passphrase));
  }

  /** A listing of a map's entries. */
  lemma {:induction false} Enumerate(m: Mapping) returns (pairs: Pairs)
    ensures MapOf(pairs) == m && forall p :: p in pairs ==> p.0 in m && m[p.0] == p.1
    decreases |m|
  {
    if m == map[] {
      pairs := [];
    } else {
      var k :| k in m;
      var smaller := m - {k};
      assert m.Keys == smaller.Keys + {k};
      assert |smaller.Keys| < |m.Keys|;
      var rest := Enumerate(smaller);
      pairs := rest + [(k, m[k])];
      assert pairs[..|pairs| - 1] == rest;
      assert m == smaller[k := m[k]];
    }
  }

  lemma ListedAreGood(flag: Flag, m: Mapping, pairs: Pairs)
    requires forall p :: p in pairs ==> p.0 in m && m[p.0] == p.1
    requires if flag == MapOrg then GoodOrgs(m) else flag.MapTeam? || flag.MapUser?
    requires flag != MapOrg ==> GoodScoped(m)
    ensures GoodPairs(flag, pairs)
  {
    hide OrgPair, ScopedPair;
  }

  /** Some listing of well-formed options parses back to them. */
  lemma SomeListParses(opts: Options) returns (args: seq<string>)
    requires WellFormed(opts)
    ensures ParseRest(args, NO_OPTIONS) == Ok(opts)
  {
    hide ParseRest, Print, MapOf, GoodPairs, GoodOrgs, GoodScoped, Classify;
    var orgs := Enumerate(opts.maps.org);
    var teams := Enumerate(opts.maps.team);
    var users := Enumerate(opts.maps.user);
    ListedAreGood(MapOrg, opts.maps.org, orgs);
    ListedAreGood(MapTeam, opts.maps.team, teams);
    ListedAreGood(MapUser, opts.maps.user, users);
    args := Print(opts, orgs, teams, users);
    PrintedOptionsParseBack(opts, orgs, teams, users);
  }

  /** The parser's image is exactly the well-formed options: every accepted argument list
      yields one, and every one is produced by some argument list. */
  lemma ParserImage(opts: Options)
    ensures WellFormed(opts) <==> exists args :: ParseRest(args, NO_OPTIONS) == Ok(opts)
  {
    assert GoodSoFar(NO_OPTIONS);
    hide ParseRest, WellFormed, GoodSoFar;
    if WellFormed(opts) {
      var args := SomeListParses(opts);
    }
    if args :| ParseRest(args, NO_OPTIONS) == Ok(opts) {
      ParsedIsWellFormed(args, NO_OPTIONS);
    }
  }
}
