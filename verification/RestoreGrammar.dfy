/** Which argument lists the restore command accepts and which error any other list gets,
    stated as a grammar: a list is a sentence of items, or it offends after some of them. */
module RestoreGrammar {
  import opened Seqs
  import opened RestoreArgs

  datatype Item = Switched(flag: Flag) | Password(value: string) | Mapped(flag: Flag, value: string) | Archive(path: string)

  function Spelling(item: Item): seq<string> {
    match item
    case Switched(flag) => [Word(flag)]
    case Password(value) => ["--passphrase", value]
    case Mapped(flag, value) => [Word(flag), value]
    case Archive(path) => [path]
  }

  function Spell(items: seq<Item>): seq<string> {
    if items == [] then [] else Spelling(items[0]) + Spell(items[1..])
  }

  predicate IsHelp(arg: string) { arg == "-h" || arg == "--help" }

  /** Not spelled like any flag. */
  ghost predicate NoFlag(arg: string) { !IsHelp(arg) && forall f: Flag :: f != Positional ==> arg != Word(f) }

  predicate IsMap(flag: Flag) { flag.MapOrg? || flag.MapTeam? || flag.MapUser? }

  /** Two non-empty names around one slash. */
  ghost predicate Scoped(s: string) {
    exists l, r :: s == l + "/" + r && l != "" && r != "" && '/' !in l && '/' !in r
  }

  ghost predicate Side(flag: Flag, s: string) {
    if flag == MapOrg then s != "" && '/' !in s else Scoped(s)
  }

  /** The mapping's two sides stand around its first colon. */
  ghost predicate Around(value: string, from: string, to: string) {
    value == from + ":" + to && ':' !in from
  }

  ghost predicate MapsWell(flag: Flag, value: string) {
    exists from, to :: Around(value, from, to) && Side(flag, from) && Side(flag, to)
  }

  ghost predicate GoodItem(item: Item) {
    match item
    case Switched(flag) => IsSwitch(flag)
    case Password(_) => true
    case Mapped(flag, value) => IsMap(flag) && MapsWell(flag, value)
    case Archive(path) => NoFlag(path)
  }

  /** Good items, where a positional argument may follow only empty ones. */
  ghost predicate InOrder(items: seq<Item>) {
    && (forall i :: 0 <= i < |items| ==> GoodItem(items[i]))
    && (forall i, j :: 0 <= i < j < |items| && items[i].Archive? && items[j].Archive? ==> items[i].path == "")
  }

  ghost predicate NamesArchive(items: seq<Item>) {
    exists i :: 0 <= i < |items| && items[i].Archive? && items[i].path != ""
  }

  ghost predicate BothModes(items: seq<Item>) {
    Switched(DryRun) in items && Switched(Confirm) in items
  }

  /** What is wrong after the items: with the arguments that follow, or at the end. */
  ghost predicate Offends(items: seq<Item>, rest: seq<string>, e: Error) {
    match e
    case HelpNotAlone => rest != [] && IsHelp(rest[0])
    case Unexpected => rest != [] && NoFlag(rest[0]) && NamesArchive(items)
    case NeedsValue => |rest| == 1 && (rest[0] == "--passphrase" || exists f :: IsMap(f) && rest[0] == Word(f))
    case BadMapping => |rest| >= 2 && exists f :: IsMap(f) && rest[0] == Word(f) && !MapsWell(f, rest[1])
    case NoArchive => rest == [] && !NamesArchive(items)
    case DryRunAndConfirm => rest == [] && NamesArchive(items) && BothModes(items)
    case NeedsConfirm => false
  }

  // ---------------------------------------------------------------- single arguments

  lemma {:induction false} FoundIsSpelled(arg: string, flags: seq<Flag>)
    ensures var f := FindFlag(arg, flags); f != Positional ==> f in flags && arg == Word(f)
  {
    if flags != [] { FoundIsSpelled(arg, flags[1..]); }
  }

  lemma ClassifyMeans(arg: string)
    ensures Classify(arg) == Positional <==> NoFlag(arg)
    ensures Classify(arg) == Help <==> IsHelp(arg)
    ensures forall f :: f != Positional && f != Help ==> (Classify(arg) == f <==> arg == Word(f))
  {
    FoundIsSpelled(arg, FLAGS);
    forall f | f != Positional ensures Classify(Word(f)) == f { WordsClassify(f); }
    assert Word(Help) == "--help";
    hide FindFlag, Word;
  }

  lemma TwoPartsMeans(s: string)
    ensures TwoParts(s) <==> Scoped(s)
  {
    var cut := IndexOf(s, '/');
    if TwoParts(s) {
      assert s == s[..cut] + "/" + s[cut + 1..];
    }
    if l, r :| s == l + "/" + r && l != "" && r != "" && '/' !in l && '/' !in r {
      CutRejoins(l, '/', r);
    }
  }

  lemma FirstColon(value: string, from: string, to: string)
    requires Around(value, from, to)
    ensures IndexOf(value, ':') == |from| < |value| && from == value[..|from|] && to == value[|from| + 1..]
  {
    CutRejoins(from, ':', to);
  }

  /** Both sides of the first colon are what the flag wants. */
  ghost predicate SidesFit(flag: Flag, value: string) {
    var cut := IndexOf(value, ':');
    cut < |value| && Side(flag, value[..cut]) && Side(flag, value[cut + 1..])
  }

  lemma MapsWellAtTheColon(flag: Flag, value: string)
    ensures MapsWell(flag, value) <==> SidesFit(flag, value)
  {
    var cut := IndexOf(value, ':');
    if cut < |value| { assert value == value[..cut] + ":" + value[cut + 1..]; }
    hide IndexOf, Side;
    if SidesFit(flag, value) {
      assert Around(value, value[..cut], value[cut + 1..]);
    }
    if from, to :| Around(value, from, to) && Side(flag, from) && Side(flag, to) { FirstColon(value, from, to); }
  }

  lemma AddMappingMeans(maps: Maps, flag: Flag, value: string)
    requires IsMap(flag)
    ensures AddMapping(maps, flag, value).Some? <==> MapsWell(flag, value)
  {
    MapsWellAtTheColon(flag, value);
    var cut := IndexOf(value, ':');
    hide MapsWell, IndexOf;
    if cut < |value| {
      TwoPartsMeans(value[..cut]);
      TwoPartsMeans(value[cut + 1..]);
      ScopedIsNotEmpty(value[..cut]);
      ScopedIsNotEmpty(value[cut + 1..]);
    }
    hide TwoParts, Scoped;
  }

  lemma ScopedIsNotEmpty(s: string)
    ensures Scoped(s) ==> s != ""
  {
  }

  // ---------------------------------------------------------------- items one after the other

  function Apply(item: Item, opts: Options): Options {
    match item
    case Switched(flag) => opts.(on := Set(opts.on, flag))
    case Password(value) => opts.(passphrase := value)
    case Mapped(flag, value) =>
      var added := AddMapping(opts.maps, flag, value);
      if added.Some? then opts.(maps := added.value) else opts
    case Archive(path) => opts.(archivePath := path)
  }

  function ApplyAll(items: seq<Item>, opts: Options): Options {
    if items == [] then opts else ApplyAll(items[1..], Apply(items[0], opts))
  }

  ghost predicate Fits(items: seq<Item>, opts: Options) {
    items == [] ||
    (GoodItem(items[0]) && (items[0].Archive? ==> opts.archivePath == "") && Fits(items[1..], Apply(items[0], opts)))
  }

  lemma ItemParses(item: Item, rest: seq<string>, opts: Options)
    requires GoodItem(item) && (item.Archive? ==> opts.archivePath == "")
    ensures ParseRest(Spelling(item) + rest, opts) == ParseRest(rest, Apply(item, opts))
  {
    var args := Spelling(item) + rest;
    ClassifyMeans(args[0]);
    if item.Mapped? { AddMappingMeans(opts.maps, item.flag, item.value); }
    hide Classify, AddMapping, NoFlag, MapsWell, Set;
    assert Word(Passphrase) == "--passphrase";
    hide Word;
    assert |Spelling(item)| == 1 ==> args[1..] == rest;
    assert |Spelling(item)| == 2 ==> args[2..] == rest;
  }

  lemma {:induction false} ItemsParse(items: seq<Item>, rest: seq<string>, opts: Options)
    requires Fits(items, opts)
    ensures ParseRest(Spell(items) + rest, opts) == ParseRest(rest, ApplyAll(items, opts))
  {
    hide ParseRest, Spelling, Apply, GoodItem;
    if items == [] {
      assert Spell(items) + rest == rest;
    } else {
      var more := Spell(items[1..]) + rest;
      assert Spell(items) + rest == Spelling(items[0]) + more;
      ItemParses(items[0], more, opts);
      ItemsParse(items[1..], rest, Apply(items[0], opts));
    }
  }

  lemma SpellsFront(item: Item, args: seq<string>)
    requires |Spelling(item)| <= |args| && Spelling(item)[0] == args[0]
    requires |Spelling(item)| == 2 ==> Spelling(item)[1] == args[1]
    ensures args == Spelling(item) + args[|Spelling(item)|..]
  {
    hide Word;
  }

  /** The item that a taken step reads. */
  lemma ReadItem(args: seq<string>, opts: Options) returns (item: Item)
    requires args != [] && Head(args, opts).Taken?
    ensures GoodItem(item) && (item.Archive? ==> opts.archivePath == "")
    ensures args == Spelling(item) + args[Head(args, opts).n..] && Apply(item, opts) == Head(args, opts).opts
  {
    var flag := Classify(args[0]);
    ClassifyMeans(args[0]);
    if IsMap(flag) && |args| > 1 { AddMappingMeans(opts.maps, flag, args[1]); }
    assert Word(Passphrase) == "--passphrase";
    hide Classify, AddMapping, NoFlag, MapsWell, Set, Word;
    if IsSwitch(flag) {
      item := Switched(flag);
    } else if flag == Positional {
      item := Archive(args[0]);
    } else if flag == Passphrase {
      item := Password(args[1]);
    } else {
      item := Mapped(flag, args[1]);
    }
    assert |Spelling(item)| == Head(args, opts).n && Spelling(item)[0] == args[0];
    assert Apply(item, opts) == Head(args, opts).opts;
    hide Head, Apply;
    SpellsFront(item, args);
  }

  /** The items read before the first rejected argument, or before the end. */
  lemma {:induction false} ReadItems(args: seq<string>, opts: Options) returns (items: seq<Item>, rest: seq<string>)
    ensures Fits(items, opts) && args == Spell(items) + rest
    ensures rest == [] || Head(rest, ApplyAll(items, opts)).Rejected?
    decreases |args|
  {
    items, rest := [], args;
    hide Head, Apply, Spelling, GoodItem;
    if args != [] && Head(args, opts).Taken? {
      var item := ReadItem(args, opts);
      var n := Head(args, opts).n;
      var later;
      later, rest := ReadItems(args[n..], Apply(item, opts));
      items := [item] + later;
      assert items[1..] == later;
      assert args == Spelling(item) + (Spell(later) + rest);
    } else {
      assert Spell(items) + rest == args;
    }
  }

  // ---------------------------------------------------------------- what the items amount to

  lemma ArchiveAfter(item: Item, opts: Options)
    ensures Apply(item, opts).archivePath == if item.Archive? then item.path else opts.archivePath
    ensures Apply(item, opts).on == if item.Switched? then Set(opts.on, item.flag) else opts.on
  {
    hide AddMapping, Set;
  }

  ghost predicate InOrderFrom(items: seq<Item>, path: string) {
    InOrder(items) && (path != "" ==> forall i :: 0 <= i < |items| ==> !items[i].Archive?)
  }

  lemma InOrderCons(items: seq<Item>, path: string)
    requires items != []
    ensures InOrderFrom(items, path) <==>
      && GoodItem(items[0]) && (items[0].Archive? ==> path == "")
      && InOrderFrom(items[1..], if items[0].Archive? then items[0].path else path)
  {
    hide GoodItem;
    var rest := items[1..];
    assert forall i :: 0 <= i < |rest| ==> rest[i] == items[i + 1];
    forall i | 1 <= i < |items| ensures items[i] == rest[i - 1] { }
    assert items[0] == items[0];
  }

  lemma {:induction false} FitsMeans(items: seq<Item>, opts: Options)
    ensures Fits(items, opts) <==> InOrderFrom(items, opts.archivePath)
  {
    hide GoodItem, Apply;
    if items != [] {
      hide InOrderFrom;
      InOrderCons(items, opts.archivePath);
      ArchiveAfter(items[0], opts);
      FitsMeans(items[1..], Apply(items[0], opts));
    }
  }

  predicate IsOn(on: Toggles, flag: Flag) {
    match flag
    case DryRun => on.dryRun
    case Confirm => on.confirm
    case ResetTarget => on.resetTarget
    case EnableJobs => on.enableScheduledJobs
    case IncludeTransient => on.includeTransient
    case Json => on.jsonOut
    case _ => false
  }

  /** A switch is on exactly when some item is that switch. */
  ghost predicate SwitchesMean(items: seq<Item>, on: Toggles) {
    forall f :: IsSwitch(f) ==> (IsOn(on, f) <==> Switched(f) in items)
  }

  /** The archive is the one non-empty positional argument. */
  ghost predicate ArchiveMeans(items: seq<Item>, path: string) {
    && (forall i :: 0 <= i < |items| && items[i].Archive? && items[i].path != "" ==> path == items[i].path)
    && (NamesArchive(items) <==> path != "")
  }

  /** The last passphrase counts. */
  ghost predicate PassphraseMeans(items: seq<Item>, value: string) {
    && (forall i :: 0 <= i < |items| && items[i].Password? && (forall j :: i < j < |items| ==> !items[j].Password?) ==>
          value == items[i].value)
    && ((forall i :: 0 <= i < |items| ==> !items[i].Password?) ==> value == "")
  }

  predicate MapsKey(item: Item, flag: Flag, key: string) {
    && item.Mapped? && item.flag == flag && |key| < |item.value|
    && item.value[..|key|] == key && item.value[|key|] == ':' && ':' !in key
  }

  /** A key is mapped when some mapping names it, and then as the last such mapping says. */
  ghost predicate KeyMeans(items: seq<Item>, flag: Flag, m: Mapping, key: string) {
    && (key in m <==> exists i :: 0 <= i < |items| && MapsKey(items[i], flag, key))
    && (forall i :: 0 <= i < |items| && MapsKey(items[i], flag, key) &&
                    (forall j :: i < j < |items| ==> !MapsKey(items[j], flag, key)) ==>
          key in m && m[key] == items[i].value[|key| + 1..])
  }

  ghost predicate MapMeans(items: seq<Item>, flag: Flag, m: Mapping) {
    forall key :: KeyMeans(items, flag, m, key)
  }

  /** What the options say, read off the items. */
  ghost predicate Means(items: seq<Item>, opts: Options) {
    && SwitchesMean(items, opts.on) && ArchiveMeans(items, opts.archivePath) && PassphraseMeans(items, opts.passphrase)
    && (forall flag :: IsMap(flag) ==> MapMeans(items, flag, MapOfFlag(opts.maps, flag)))
  }

  lemma {:induction false} ApplyAppend(items: seq<Item>, last: Item, opts: Options)
    ensures ApplyAll(items + [last], opts) == Apply(last, ApplyAll(items, opts))
  {
    hide Apply;
    if items == [] {
      assert items + [last] == [last];
    } else {
      assert (items + [last])[1..] == items[1..] + [last];
      ApplyAppend(items[1..], last, Apply(items[0], opts));
    }
  }

  lemma SwitchesStep(items: seq<Item>, last: Item, on: Toggles)
    requires SwitchesMean(items, on)
    ensures SwitchesMean(items + [last], if last.Switched? then Set(on, last.flag) else on)
  {
  }

  lemma ArchiveStep(items: seq<Item>, last: Item, path: string)
    requires ArchiveMeans(items, path) && InOrder(items + [last])
    ensures ArchiveMeans(items + [last], if last.Archive? then last.path else path)
  {
    hide GoodItem;
    var more := items + [last];
    assert more[|items|] == last;
    forall i | 0 <= i < |items| ensures more[i] == items[i] { }
    if last.Archive? {
      forall i | 0 <= i < |items| && items[i].Archive? ensures items[i].path == "" { assert more[i].Archive?; }
    }
    if NamesArchive(items) {
      var i :| 0 <= i < |items| && items[i].Archive? && items[i].path != "";
      assert more[i].Archive? && more[i].path != "";
    }
  }

  lemma PassphraseStep(items: seq<Item>, last: Item, value: string)
    requires PassphraseMeans(items, value)
    ensures PassphraseMeans(items + [last], if last.Password? then last.value else value)
  {
    var more := items + [last];
    assert more[|items|] == last;
    forall i | 0 <= i < |items| ensures more[i] == items[i] { }
  }

  lemma AddedKey(maps: Maps, flag: Flag, value: string)
    requires IsMap(flag) && AddMapping(maps, flag, value).Some?
    ensures var cut := IndexOf(value, ':');
      && cut < |value|
      && AddMapping(maps, flag, value).value
         == WithMap(maps, flag, MapOfFlag(maps, flag)[value[..cut] := value[cut + 1..]])
  {
    hide TwoParts, IndexOf;
  }

  lemma NamedKey(item: Item, flag: Flag, key: string)
    requires item.Mapped? && item.flag == flag && IndexOf(item.value, ':') < |item.value|
    ensures MapsKey(item, flag, key) <==> item.value[..IndexOf(item.value, ':')] == key
  {
    if MapsKey(item, flag, key) {
      assert item.value == key + [':'] + item.value[|key| + 1..];
      CutRejoins(key, ':', item.value[|key| + 1..]);
    }
    hide IndexOf;
  }

  lemma OtherKey(item: Item, flag: Flag, key: string)
    requires !(item.Mapped? && item.flag == flag)
    ensures !MapsKey(item, flag, key)
  {
  }

  /** One more item, which names the key or does not. */
  lemma KeyStep(items: seq<Item>, last: Item, flag: Flag, m: Mapping, now: Mapping, key: string)
    requires KeyMeans(items, flag, m, key)
    requires if MapsKey(last, flag, key) then key in now && now[key] == last.value[|key| + 1..]
             else (key in now <==> key in m) && (key in m ==> now[key] == m[key])
    ensures KeyMeans(items + [last], flag, now, key)
  {
    hide MapsKey;
    var more := items + [last];
    assert more[|items|] == last;
    if i :| 0 <= i < |items| && MapsKey(items[i], flag, key) { assert MapsKey(more[i], flag, key); }
    if i :| 0 <= i < |more| && MapsKey(more[i], flag, key) && !MapsKey(last, flag, key) {
      assert MapsKey(items[i], flag, key);
    }
    forall i | 0 <= i < |more| && MapsKey(more[i], flag, key) && (forall j :: i < j < |more| ==> !MapsKey(more[j], flag, key))
      ensures key in now && more[i].Mapped? && |key| < |more[i].value| && now[key] == more[i].value[|key| + 1..]
    {
      KeyAt(items, last, flag, m, key, i);
    }
  }

  lemma KeyAt(items: seq<Item>, last: Item, flag: Flag, m: Mapping, key: string, i: nat)
    requires KeyMeans(items, flag, m, key) && i <= |items|
    requires var more := items + [last];
      MapsKey(more[i], flag, key) && forall j :: i < j < |more| ==> !MapsKey(more[j], flag, key)
    ensures (items + [last])[i].Mapped? && |key| < |(items + [last])[i].value|
    ensures i == |items| <==> MapsKey(last, flag, key)
    ensures i < |items| ==> key in m && m[key] == items[i].value[|key| + 1..]
  {
    var more := items + [last];
    assert more[|items|] == last;
    if i < |items| {
      assert more[i] == items[i];
      forall j | i < j < |items| ensures !MapsKey(items[j], flag, key) { assert more[j] == items[j]; }
    }
  }

  function MapAfter(item: Item, flag: Flag, maps: Maps): Mapping {
    MapOfFlag(Apply(item, Options("", ALL_OFF, "", maps)).maps, flag)
  }

  lemma OtherMapStays(item: Item, flag: Flag, maps: Maps)
    requires IsMap(flag) && GoodItem(item) && !(item.Mapped? && item.flag == flag)
    ensures MapAfter(item, flag, maps) == MapOfFlag(maps, flag)
  {
    if item.Mapped? {
      AddMappingMeans(maps, item.flag, item.value);
      AddedKey(maps, item.flag, item.value);
    }
    hide AddMapping, IndexOf, MapsWell, Set;
  }

  lemma OwnMapChanges(item: Item, flag: Flag, maps: Maps)
    requires GoodItem(item) && item.Mapped? && item.flag == flag
    ensures var cut := IndexOf(item.value, ':');
      cut < |item.value| && MapAfter(item, flag, maps) == MapOfFlag(maps, flag)[item.value[..cut] := item.value[cut + 1..]]
  {
    AddMappingMeans(maps, item.flag, item.value);
    AddedKey(maps, item.flag, item.value);
    hide AddMapping, IndexOf, MapsWell, Set;
  }

  lemma OneKey(item: Item, flag: Flag, maps: Maps, key: string)
    requires IsMap(flag) && GoodItem(item)
    ensures var m, now := MapOfFlag(maps, flag), MapAfter(item, flag, maps);
      if MapsKey(item, flag, key) then key in now && now[key] == item.value[|key| + 1..]
      else (key in now <==> key in m) && (key in m ==> now[key] == m[key])
  {
    if item.Mapped? && item.flag == flag {
      OwnMapChanges(item, flag, maps);
      NamedKey(item, flag, key);
    } else {
      OtherMapStays(item, flag, maps);
      OtherKey(item, flag, key);
    }
    hide MapAfter, IndexOf, GoodItem;
  }

  lemma MapStep(items: seq<Item>, last: Item, flag: Flag, maps: Maps)
    requires IsMap(flag) && GoodItem(last) && MapMeans(items, flag, MapOfFlag(maps, flag))
    ensures MapMeans(items + [last], flag, MapAfter(last, flag, maps))
  {
    hide GoodItem, KeyMeans, MapsKey, MapAfter;
    forall key ensures KeyMeans(items + [last], flag, MapAfter(last, flag, maps), key) {
      OneKey(last, flag, maps, key);
      assert KeyMeans(items, flag, MapOfFlag(maps, flag), key);
      KeyStep(items, last, flag, MapOfFlag(maps, flag), MapAfter(last, flag, maps), key);
    }
  }

  lemma MapsOnly(item: Item, opts: Options)
    ensures Apply(item, opts).maps == Apply(item, Options("", ALL_OFF, "", opts.maps)).maps
    ensures Apply(item, opts).passphrase == if item.Password? then item.value else opts.passphrase
  {
    hide AddMapping, Set;
  }

  lemma {:induction false} ItemsMean(items: seq<Item>)
    requires InOrder(items)
    ensures Means(items, ApplyAll(items, NO_OPTIONS))
  {
    if items == [] {
      hide GoodItem;
    } else {
      var init, last := items[..|items| - 1], items[|items| - 1];
      assert items == init + [last];
      assert InOrder(init) by { hide GoodItem; assert forall i :: 0 <= i < |init| ==> init[i] == items[i]; }
      assert GoodItem(last);
      ItemsMean(init);
      var opts := ApplyAll(init, NO_OPTIONS);
      ApplyAppend(init, last, NO_OPTIONS);
      ArchiveAfter(last, opts);
      MapsOnly(last, opts);
      SwitchesStep(init, last, opts.on);
      ArchiveStep(init, last, opts.archivePath);
      PassphraseStep(init, last, opts.passphrase);
      hide GoodItem, SwitchesMean, ArchiveMeans, PassphraseMeans, MapMeans, Apply, Set, InOrder;
      forall flag | IsMap(flag) { MapStep(init, last, flag, opts.maps); }
    }
  }

  // ---------------------------------------------------------------- acceptance and rejection

  lemma RejectionMeans(items: seq<Item>, rest: seq<string>, e: Error)
    requires InOrder(items) && rest != []
    ensures Head(rest, ApplyAll(items, NO_OPTIONS)) == Rejected(e) <==> Offends(items, rest, e)
  {
    var opts := ApplyAll(items, NO_OPTIONS);
    ItemsMean(items);
    ClassifyMeans(rest[0]);
    WordsClassify(Passphrase);
    forall f | IsMap(f) ensures Classify(Word(f)) == f { WordsClassify(f); }
    var flag := Classify(rest[0]);
    if IsMap(flag) && |rest| > 1 { AddMappingMeans(opts.maps, flag, rest[1]); }
    assert Word(Passphrase) == "--passphrase";
    hide Classify, AddMapping, NoFlag, MapsWell, Set, Word, ApplyAll, InOrder;
    hide SwitchesMean, PassphraseMeans, MapMeans, NamesArchive;
  }

  lemma EndMeans(items: seq<Item>, e: Error)
    requires InOrder(items)
    ensures Finish(ApplyAll(items, NO_OPTIONS)) == Err(e) <==> Offends(items, [], e)
    ensures Finish(ApplyAll(items, NO_OPTIONS)).Ok? <==> NamesArchive(items) && !BothModes(items)
  {
    ItemsMean(items);
    var on := ApplyAll(items, NO_OPTIONS).on;
    assert IsOn(on, DryRun) <==> Switched(DryRun) in items;
    assert IsOn(on, Confirm) <==> Switched(Confirm) in items;
    hide ApplyAll, InOrder, SwitchesMean, PassphraseMeans, MapMeans, NamesArchive;
  }

  /** A sentence: good items in order, with an archive and not both modes. */
  ghost predicate Sentence(args: seq<string>, items: seq<Item>) {
    args == Spell(items) && InOrder(items) && NamesArchive(items) && !BothModes(items)
  }

  ghost predicate Offence(args: seq<string>, items: seq<Item>, rest: seq<string>, e: Error) {
    args == Spell(items) + rest && InOrder(items) && Offends(items, rest, e)
  }

  lemma NothingLeft(items: seq<Item>)
    ensures Spell(items) + [] == Spell(items)
    ensures ParseRest([], ApplyAll(items, NO_OPTIONS)) == Finish(ApplyAll(items, NO_OPTIONS))
  {
    hide Spell, ApplyAll, Head;
  }

  lemma OffenceIsReported(args: seq<string>, items: seq<Item>, rest: seq<string>, e: Error)
    requires Offence(args, items, rest, e)
    ensures ParseRest(args, NO_OPTIONS) == Err(e)
  {
    FitsMeans(items, NO_OPTIONS);
    ItemsParse(items, rest, NO_OPTIONS);
    if rest == [] { EndMeans(items, e); } else { RejectionMeans(items, rest, e); }
    NothingLeft(items);
    hide Spell, ApplyAll, Head, Offends, InOrder, Fits, Finish;
  }

  lemma SentenceIsAccepted(args: seq<string>, items: seq<Item>)
    requires Sentence(args, items)
    ensures ParseRest(args, NO_OPTIONS) == Ok(ApplyAll(items, NO_OPTIONS))
  {
    FitsMeans(items, NO_OPTIONS);
    ItemsParse(items, [], NO_OPTIONS);
    EndMeans(items, NoArchive);
    NothingLeft(items);
    hide Spell, ApplyAll, Head, Offends, InOrder, Fits, ParseRest, NamesArchive, BothModes;
  }

  /** Every argument list is a sentence or offends after some items. */
  lemma Read(args: seq<string>) returns (items: seq<Item>, rest: seq<string>, e: Error)
    ensures Sentence(args, items) || Offence(args, items, rest, e)
  {
    items, rest := ReadItems(args, NO_OPTIONS);
    FitsMeans(items, NO_OPTIONS);
    NothingLeft(items);
    e := NoArchive;
    hide Spell, ApplyAll, Offends, InOrder, Fits, NamesArchive, BothModes;
    if rest == [] {
      var end := Finish(ApplyAll(items, NO_OPTIONS));
      if end.Err? { e := end.error; }
      EndMeans(items, e);
    } else {
      var step := Head(rest, ApplyAll(items, NO_OPTIONS));
      hide Head;
      e := step.error;
      RejectionMeans(items, rest, e);
    }
  }

  /** An argument list gets an error exactly when good items in order are followed by what
      that error is about: a help flag, a second positional argument, a missing value, a
      mapping of the wrong shape, or an end without an archive or with both modes. */
  lemma RejectedExactlyWhen(args: seq<string>, e: Error)
    ensures ParseRest(args, NO_OPTIONS) == Err(e) <==> exists items, rest :: Offence(args, items, rest, e)
  {
    hide ParseRest, Offence, Sentence;
    if items, rest :| Offence(args, items, rest, e) { OffenceIsReported(args, items, rest, e); }
    var items, rest, found := Read(args);
    if Sentence(args, items) { SentenceIsAccepted(args, items); } else { OffenceIsReported(args, items, rest, found); }
  }

  lemma SameSwitches(items: seq<Item>, a: Toggles, b: Toggles)
    requires SwitchesMean(items, a) && SwitchesMean(items, b)
    ensures a == b
  {
    assert IsOn(a, DryRun) == IsOn(b, DryRun) && IsOn(a, Confirm) == IsOn(b, Confirm);
    assert IsOn(a, ResetTarget) == IsOn(b, ResetTarget) && IsOn(a, EnableJobs) == IsOn(b, EnableJobs);
    assert IsOn(a, IncludeTransient) == IsOn(b, IncludeTransient) && IsOn(a, Json) == IsOn(b, Json);
  }

  lemma {:induction false} LastNaming(items: seq<Item>, flag: Flag, key: string) returns (i: nat)
    requires exists i :: 0 <= i < |items| && MapsKey(items[i], flag, key)
    ensures i < |items| && MapsKey(items[i], flag, key)
    ensures forall j :: i < j < |items| ==> !MapsKey(items[j], flag, key)
  {
    hide MapsKey;
    i := |items| - 1;
    if !MapsKey(items[i], flag, key) {
      var k :| 0 <= k < |items| && MapsKey(items[k], flag, key);
      assert MapsKey(items[..i][k], flag, key);
      var n := LastNaming(items[..i], flag, key);
      forall j | n < j < |items| ensures !MapsKey(items[j], flag, key) {
        if j < i { assert items[..i][j] == items[j]; }
      }
      i := n;
    }
  }

  lemma SameMaps(items: seq<Item>, flag: Flag, a: Mapping, b: Mapping)
    requires MapMeans(items, flag, a) && MapMeans(items, flag, b)
    ensures a == b
  {
    forall key ensures key in a <==> key in b {
      assert KeyMeans(items, flag, a, key) && KeyMeans(items, flag, b, key);
    }
    forall key | key in a ensures a[key] == b[key] {
      assert KeyMeans(items, flag, a, key) && KeyMeans(items, flag, b, key);
      var i := LastNaming(items, flag, key);
    }
  }

  lemma {:induction false} SamePassphrases(items: seq<Item>, a: string, b: string)
    requires PassphraseMeans(items, a) && PassphraseMeans(items, b)
    ensures a == b
  {
    if i :| 0 <= i < |items| && items[i].Password? {
      var k := LastPassword(items, i);
    }
  }

  lemma {:induction false} LastPassword(items: seq<Item>, i: nat) returns (k: nat)
    requires i < |items| && items[i].Password?
    ensures k < |items| && items[k].Password? && forall j :: k < j < |items| ==> !items[j].Password?
    decreases |items| - i
  {
    if j :| i < j < |items| && items[j].Password? {
      k := LastPassword(items, j);
    } else {
      k := i;
    }
  }

  /** The items leave no choice of options. */
  lemma MeaningIsUnique(items: seq<Item>, a: Options, b: Options)
    requires Means(items, a) && Means(items, b)
    ensures a == b
  {
    SameSwitches(items, a.on, b.on);
    SamePassphrases(items, a.passphrase, b.passphrase);
    assert IsMap(MapOrg) && IsMap(MapTeam) && IsMap(MapUser);
    SameMaps(items, MapOrg, a.maps.org, b.maps.org);
    SameMaps(items, MapTeam, a.maps.team, b.maps.team);
    SameMaps(items, MapUser, a.maps.user, b.maps.user);
    assert a.archivePath == b.archivePath by { hide MapMeans, SwitchesMean, PassphraseMeans; }
    hide MapMeans, SwitchesMean, PassphraseMeans, ArchiveMeans;
  }

  /** An argument list is accepted with these options exactly when it is a sentence that means them. */
  lemma AcceptedExactlyWhen(args: seq<string>, opts: Options)
    ensures ParseRest(args, NO_OPTIONS) == Ok(opts) <==> exists items :: Sentence(args, items) && Means(items, opts)
  {
    if items :| Sentence(args, items) && Means(items, opts) {
      SentenceIsAccepted(args, items);
      ItemsMean(items);
      MeaningIsUnique(items, opts, ApplyAll(items, NO_OPTIONS));
    }
    hide ParseRest, Offence;
    var items, rest, e := Read(args);
    if Sentence(args, items) {
      SentenceIsAccepted(args, items);
      ItemsMean(items);
    } else {
      OffenceIsReported(args, items, rest, e);
    }
  }

  /** After validation exactly the sentences with one of the two modes are left. */
  lemma ValidatedExactlyWhen(args: seq<string>, items: seq<Item>)
    requires Sentence(args, items)
    ensures ParseRest(args, NO_OPTIONS).Ok?
    ensures Validate(ParseRest(args, NO_OPTIONS).opts).Ok? <==> (Switched(DryRun) in items) != (Switched(Confirm) in items)
    ensures Validate(ParseRest(args, NO_OPTIONS).opts).Ok? ==>
      Validate(ParseRest(args, NO_OPTIONS).opts) == ParseRest(args, NO_OPTIONS)
  {
    SentenceIsAccepted(args, items);
    ItemsMean(items);
    var on := ApplyAll(items, NO_OPTIONS).on;
    assert IsOn(on, DryRun) <==> Switched(DryRun) in items;
    assert IsOn(on, Confirm) <==> Switched(Confirm) in items;
    hide ParseRest, ApplyAll, Spell, InOrder, SwitchesMean, PassphraseMeans, MapMeans, NamesArchive;
  }
}
