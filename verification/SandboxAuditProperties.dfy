/** What the sandbox audit guarantees: which directories and rows one command can
    touch, under every failure pattern, and when it leaves nothing to report. */
module SandboxAuditProperties {
  import opened Seqs
  import opened SandboxAudit

  /** The snapshot shows exactly the state: every visible directory, every row, once per identifier. */
  ghost predicate Observes(snap: Snapshot, st: State) {
    && Elems(snap.layerDirs) == Shown(st.layers)
    && Elems(snap.upperDirs) == Shown(st.uppers)
    && Elems(snap.layers) == st.rows.Values
  }

  function Shown(dirs: map<string, nat>): set<string> {
    set d | d in dirs && Visible(d)
  }

  /** Each row is keyed by its own identifier. */
  ghost predicate Keyed(st: State) {
    forall id :: id in st.rows ==> st.rows[id].id == id
  }

  function Tracked(snap: Snapshot): set<string> {
    set l | l in snap.layers :: l.id
  }

  function StaleIds(snap: Snapshot, now: int, grace: int): set<string> {
    set l | l in snap.layers && IsStale(l, now, grace) :: l.id
  }

  // ---------------------------------------------------------------- what a report contains

  lemma ReportMembers(snap: Snapshot, now: int, grace: int, d: string)
    ensures var r := ReportOf(snap, now, grace);
      && (d in r.orphanLayers <==> d in snap.layerDirs && d != "" && d != BASE_LAYER && !IsStaging(d) && d !in Tracked(snap))
      && (d in r.staging <==> d in snap.layerDirs && "__staging-" <= d)
      && (d in r.unreferenced <==> d in StaleIds(snap, now, grace))
      && (d in r.rowOrphans <==> d != "" && d !in snap.layerDirs && d in Tracked(snap))
      && (d in r.orphanUppers <==> d in snap.upperDirs && d != "" && d !in snap.sessions)
  {
    FilterMembers(snap.layerDirs, OrphanTest(Elems(Ids(snap.layers))));
    FilterMembers(snap.layerDirs, StagingTest());
    FilterMembers(snap.layers, StaleTest(now, grace));
    FilterMembers(snap.layers, MissingTest(Elems(snap.layerDirs)));
    FilterMembers(snap.upperDirs, UnknownTest(snap.sessions));
    IdsMembers(snap.layers, d);
    IdsMembers(Filter(snap.layers, StaleTest(now, grace)), d);
    IdsMembers(Filter(snap.layers, MissingTest(Elems(snap.layerDirs))), d);
  }

  /** Every class lists its entries in the order of the listing or of the rows, each as often
      as it stands there. */
  lemma ReportKeepsOrder(snap: Snapshot, now: int, grace: int) returns (stale: seq<Layer>, missing: seq<Layer>)
    ensures var r := ReportOf(snap, now, grace);
      && Selection(r.orphanLayers, snap.layerDirs) && Selection(r.staging, snap.layerDirs)
      && Selection(r.orphanUppers, snap.upperDirs)
      && Selection(stale, snap.layers) && r.unreferenced == Ids(stale)
      && Selection(missing, snap.layers) && r.rowOrphans == Ids(missing)
      && (forall l :: l in stale <==> l in snap.layers && l.refCount == 0 && now - l.addedAt > grace)
      && (forall l :: l in missing <==> l in snap.layers && l.id != "" && l.id !in snap.layerDirs)
  {
    stale := Filter(snap.layers, StaleTest(now, grace));
    missing := Filter(snap.layers, MissingTest(Elems(snap.layerDirs)));
    FilterIsSelection(snap.layerDirs, OrphanTest(Elems(Ids(snap.layers))));
    FilterIsSelection(snap.layerDirs, StagingTest());
    FilterIsSelection(snap.upperDirs, UnknownTest(snap.sessions));
    FilterIsSelection(snap.layers, StaleTest(now, grace));
    FilterIsSelection(snap.layers, MissingTest(Elems(snap.layerDirs)));
    FilterMembers(snap.layers, StaleTest(now, grace));
    FilterMembers(snap.layers, MissingTest(Elems(snap.layerDirs)));
    assert forall id :: id in Elems(snap.layerDirs) <==> id in snap.layerDirs;
    hide Selection, Filter;
  }

  lemma BaseName()
    ensures SafeName(BASE_LAYER) && !IsStaging(BASE_LAYER)
  {
    assert BASE_LAYER[0] != STAGING_PREFIX[0];
    forall i | 0 <= i <= |BASE_LAYER| ensures !TextAt(BASE_LAYER, i, "..") {
      if i <= 3 { assert BASE_LAYER[i + 0] != ".."[0]; }
    }
  }

  lemma IdsMembers(ls: seq<Layer>, d: string)
    ensures d in Ids(ls) <==> exists l :: l in ls && l.id == d
  {
    if l :| l in ls && l.id == d {
      var i :| 0 <= i < |ls| && ls[i] == l;
      assert Ids(ls)[i] == d;
    }
  }

  /** In a faithful snapshot, the classes in terms of the state. */
  lemma ObservedMembers(snap: Snapshot, st: State, now: int, grace: int, d: string)
    requires Observes(snap, st) && Keyed(st)
    ensures var r := ReportOf(snap, now, grace);
      && (d in r.orphanLayers <==> d in st.layers && Visible(d) && d != BASE_LAYER && !IsStaging(d) && d !in st.rows)
      && (d in r.staging <==> d in st.layers && Visible(d) && IsStaging(d))
      && (d in r.unreferenced <==> d in st.rows && IsStale(st.rows[d], now, grace))
      && (d in r.rowOrphans <==> d != "" && !(d in st.layers && Visible(d)) && d in st.rows)
      && (d in r.orphanUppers <==> d in st.uppers && Visible(d) && d !in snap.sessions)
  {
    ReportMembers(snap, now, grace, d);
    assert d in snap.layerDirs <==> d in Elems(snap.layerDirs);
    assert d in snap.upperDirs <==> d in Elems(snap.upperDirs);
    forall l ensures l in snap.layers <==> l.id in st.rows && st.rows[l.id] == l {
      assert l in snap.layers <==> l in Elems(snap.layers);
    }
    if d in st.rows {
      assert st.rows[d] in snap.layers;
    }
  }

  // ---------------------------------------------------------------- single steps

  lemma {:induction false} DeletesFrame(rows: map<string, Layer>, ids: seq<string>, db: nat -> DbRun)
    ensures var after := AfterDeletes(rows, ids, db);
      && after.Keys <= rows.Keys
      && (forall id :: id in after ==> after[id] == rows[id])
      && (forall id :: id in rows && (id !in ids || rows[id].refCount > 0) ==> id in after)
  {
    if ids != [] {
      DeletesFrame(rows, ids[..|ids| - 1], db);
    }
  }

  lemma {:induction false} DeletesAll(rows: map<string, Layer>, ids: seq<string>, db: nat -> DbRun)
    requires forall i :: db(i).Answered?
    ensures forall id :: id in ids && id in rows && rows[id].refCount <= 0 ==> id !in AfterDeletes(rows, ids, db)
  {
    if ids != [] {
      var last := |ids| - 1;
      DeletesAll(rows, ids[..last], db);
      DeletesFrame(rows, ids[..last], db);
    }
  }

  // ---------------------------------------------------------------- safety under every failure

  /** A layer directory the command may remove or damage: an unsafe-free name that is an
      orphan, a staging leftover, or a stale unreferenced layer. The grace period only
      protects the last kind. */
  ghost predicate DirAtRisk(snap: Snapshot, now: int, grace: int, d: string) {
    && SafeName(d)
    && ((d in snap.layerDirs && d != BASE_LAYER && (IsStaging(d) || d !in Tracked(snap)))
        || d in StaleIds(snap, now, grace))
  }

  /** For every state, flag combination and failure pattern, only a directory at risk changes. */
  lemma OnlyDirsAtRiskChange(st: State, snap: Snapshot, now: int, grace: int, flags: Flags, plan: Plan, d: string)
    requires d in st.layers
    requires !flags.reclaim || !DirAtRisk(snap, now, grace, d)
    ensures var after := AfterAudit(st, snap, now, grace, flags, plan);
            d in after.layers && after.layers[d] == st.layers[d]
  {
    ReportMembers(snap, now, grace, d);
  }

  /** No name that could lead out of the volume is ever removed or damaged. */
  lemma NamesStayInTheVolume(st: State, snap: Snapshot, now: int, grace: int, flags: Flags, plan: Plan, d: string)
    requires var after := AfterAudit(st, snap, now, grace, flags, plan);
      || (d in st.layers && !(d in after.layers && after.layers[d] == st.layers[d]))
      || (d in st.uppers && !(d in after.uppers && after.uppers[d] == st.uppers[d]))
    ensures d != "" && '/' !in d && forall i :: 0 <= i < |d| - 1 && d[i] == '.' ==> d[i + 1] != '.'
  {
    hide ReportOf;
    forall i | 0 <= i < |d| - 1 && d[i] == '.' ensures d[i + 1] != '.' {
      assert !TextAt(d, i, "..");
      assert d[i + 0] == '.';
    }
  }

  /** When no pod fails, exactly the directories at risk are removed. */
  lemma DirsAtRiskAreRemoved(st: State, snap: Snapshot, now: int, grace: int, flags: Flags, plan: Plan, d: string)
    requires d in st.layers && plan.orphanPod.Succeeded? && plan.stalePod.Succeeded?
    ensures d !in AfterAudit(st, snap, now, grace, flags, plan).layers <==>
            flags.reclaim && DirAtRisk(snap, now, grace, d)
  {
    ReportMembers(snap, now, grace, d);
    if !flags.reclaim || !DirAtRisk(snap, now, grace, d) {
      OnlyDirsAtRiskChange(st, snap, now, grace, flags, plan, d);
    }
  }

  /** The removals are independent: a pod that succeeds removes its own directories, whatever
      becomes of the other one. */
  lemma EachPodRemovesItsOwn(st: State, snap: Snapshot, now: int, grace: int, flags: Flags, plan: Plan, d: string)
    requires flags.reclaim && SafeName(d)
    requires
      || (plan.orphanPod.Succeeded? && d in snap.layerDirs && d != BASE_LAYER && (IsStaging(d) || d !in Tracked(snap)))
      || (plan.stalePod.Succeeded? && d in StaleIds(snap, now, grace))
    ensures d !in AfterAudit(st, snap, now, grace, flags, plan).layers
  {
    ReportMembers(snap, now, grace, d);
  }

  /** An upper directory the command may remove or damage: a listed one of no known session. */
  ghost predicate UpperAtRisk(snap: Snapshot, d: string) {
    SafeName(d) && d in snap.upperDirs && d !in snap.sessions
  }

  /** Without `--reclaim`, or outside that class, an upper directory keeps its content. */
  lemma OnlyUppersAtRiskChange(st: State, snap: Snapshot, now: int, grace: int, flags: Flags, plan: Plan, d: string)
    requires d in st.uppers
    requires !flags.reclaim || !UpperAtRisk(snap, d)
    ensures var after := AfterAudit(st, snap, now, grace, flags, plan);
            d in after.uppers && after.uppers[d] == st.uppers[d]
  {
    ReportMembers(snap, now, grace, d);
  }

  /** When the pod for them succeeds, exactly the upper directories at risk are removed. */
  lemma UppersAtRiskAreRemoved(st: State, snap: Snapshot, now: int, grace: int, flags: Flags, plan: Plan, d: string)
    requires d in st.uppers && plan.upperPod.Succeeded?
    ensures d !in AfterAudit(st, snap, now, grace, flags, plan).uppers <==> flags.reclaim && UpperAtRisk(snap, d)
  {
    ReportMembers(snap, now, grace, d);
  }

  /** A pod that fails leaves of the directories at risk what it leaves, damaged or not. */
  lemma FailedPodsLeave(st: State, snap: Snapshot, now: int, grace: int, plan: Plan, reclaimPg: bool, d: string)
    requires plan.orphanPod.Failed? && plan.upperPod.Failed?
    ensures var after := AfterAudit(st, snap, now, grace, Flags(true, reclaimPg), plan);
      && (d in st.uppers && UpperAtRisk(snap, d) ==>
            (d in after.uppers <==> d in plan.upperPod.left) &&
            (d in after.uppers ==> after.uppers[d] == plan.upperPod.left[d]))
      && (d in st.layers && DirAtRisk(snap, now, grace, d) && d !in StaleIds(snap, now, grace) ==>
            (d in after.layers <==> d in plan.orphanPod.left) &&
            (d in after.layers ==> after.layers[d] == plan.orphanPod.left[d]))
  {
    ReportMembers(snap, now, grace, d);
  }

  /** A row that the audit saw unreferenced and stale, with its directory's pod gone through,
      or without a listed directory. */
  ghost predicate RowAtRisk(snap: Snapshot, now: int, grace: int, flags: Flags, plan: Plan, id: string) {
    || (flags.reclaim && plan.stalePod.Succeeded? && id in StaleIds(snap, now, grace))
    || (flags.reclaimPg && id != "" && id !in snap.layerDirs && id in Tracked(snap))
  }

  /** A row survives unless it was at risk and is unreferenced when its deletion runs. */
  lemma OnlyRowsAtRiskGo(st: State, snap: Snapshot, now: int, grace: int, flags: Flags, plan: Plan, id: string)
    requires id in st.rows
    requires st.rows[id].refCount > 0 || !RowAtRisk(snap, now, grace, flags, plan, id)
    ensures var after := AfterAudit(st, snap, now, grace, flags, plan);
            id in after.rows && after.rows[id] == st.rows[id]
  {
    var r := ReportOf(snap, now, grace);
    ReportMembers(snap, now, grace, id);
    var rows1 := StaleRowsAfter(st.rows, r, flags, plan);
    DeletesFrame(st.rows, r.unreferenced, plan.staleDb);
    DeletesFrame(rows1, r.rowOrphans, plan.rowDb);
  }

  /** Some deletion of the row reached the database. */
  ghost predicate Reaches(ids: seq<string>, db: nat -> DbRun, id: string) {
    exists i :: 0 <= i < |ids| && ids[i] == id && !db(i).LostBefore?
  }

  lemma ReachesStep(ids: seq<string>, db: nat -> DbRun, id: string)
    requires ids != []
    ensures var last := |ids| - 1;
            Reaches(ids, db, id) <==> Reaches(ids[..last], db, id) || (ids[last] == id && !db(last).LostBefore?)
  {
    var last := |ids| - 1;
    if i :| 0 <= i < |ids| && ids[i] == id && !db(i).LostBefore? {
      if i < last { assert ids[..last][i] == id; }
    }
    if i :| 0 <= i < last && ids[..last][i] == id && !db(i).LostBefore? {
      assert ids[i] == id;
    }
  }

  lemma {:induction false} DeletesReach(rows: map<string, Layer>, ids: seq<string>, db: nat -> DbRun, id: string)
    requires id in rows
    ensures id !in AfterDeletes(rows, ids, db) <==> rows[id].refCount <= 0 && Reaches(ids, db, id)
  {
    if ids != [] {
      var last := |ids| - 1;
      DeletesReach(rows, ids[..last], db, id);
      DeletesFrame(rows, ids[..last], db);
      ReachesStep(ids, db, id);
      hide Reaches;
    }
  }

  /** The rows that go, for every failure pattern: those whose deletion is issued, reaches the
      database and finds no reference. */
  lemma RowsGoExactlyWhen(st: State, snap: Snapshot, now: int, grace: int, flags: Flags, plan: Plan, id: string)
    requires id in st.rows
    ensures var r := ReportOf(snap, now, grace);
            id !in AfterAudit(st, snap, now, grace, flags, plan).rows <==>
            st.rows[id].refCount <= 0 &&
            ((flags.reclaim && plan.stalePod.Succeeded? && Reaches(r.unreferenced, plan.staleDb, id))
             || (flags.reclaimPg && Reaches(r.rowOrphans, plan.rowDb, id)))
  {
    var r := ReportOf(snap, now, grace);
    var rows1 := StaleRowsAfter(st.rows, r, flags, plan);
    DeletesReach(st.rows, r.unreferenced, plan.staleDb, id);
    DeletesFrame(st.rows, r.unreferenced, plan.staleDb);
    if id in rows1 { DeletesReach(rows1, r.rowOrphans, plan.rowDb, id); }
    DeletesFrame(rows1, r.rowOrphans, plan.rowDb);
    hide Reaches, ReportOf;
  }

  /** With an answering database those are exactly the rows at risk, whatever becomes of the
      orphan and upper pods. */
  lemma RowsAtRiskGo(st: State, snap: Snapshot, now: int, grace: int, flags: Flags, plan: Plan, id: string)
    requires id in st.rows && (forall i :: plan.staleDb(i).Answered?) && (forall i :: plan.rowDb(i).Answered?)
    ensures id !in AfterAudit(st, snap, now, grace, flags, plan).rows <==>
            RowAtRisk(snap, now, grace, flags, plan, id) && st.rows[id].refCount <= 0
  {
    ReportMembers(snap, now, grace, id);
    RowsGoExactlyWhen(st, snap, now, grace, flags, plan, id);
    hide ReportOf, AfterAudit;
  }

  /** A stale row whose removal pod failed stays, so that its directory is not forgotten: only
      the row reclaim, for a row without a listed directory, could still remove it. */
  lemma StaleRowNeedsItsPod(st: State, snap: Snapshot, now: int, grace: int, flags: Flags, plan: Plan, id: string)
    requires plan.stalePod.Failed? && id in st.rows && id in snap.layerDirs
    ensures var after := AfterAudit(st, snap, now, grace, flags, plan);
            id in after.rows && after.rows[id] == st.rows[id]
  {
    OnlyRowsAtRiskGo(st, snap, now, grace, flags, plan, id);
  }

  /** A live layer: tracked, still referenced or young, not a staging name, directory listed. */
  ghost predicate Live(snap: Snapshot, now: int, grace: int, d: string) {
    d in snap.layerDirs && !IsStaging(d) && d in Tracked(snap) && d !in StaleIds(snap, now, grace)
  }

  /** Safety: whatever fails, and whatever else happened since the snapshot, a live layer
      keeps its directory untouched. */
  lemma LiveLayerKeepsDirectory(st: State, snap: Snapshot, now: int, grace: int, flags: Flags, plan: Plan, d: string)
    requires Live(snap, now, grace, d) && d in st.layers
    ensures var after := AfterAudit(st, snap, now, grace, flags, plan);
            d in after.layers && after.layers[d] == st.layers[d]
  {
    OnlyDirsAtRiskChange(st, snap, now, grace, flags, plan, d);
  }

  /** ... and its row. */
  lemma LiveLayerKeepsRow(st: State, snap: Snapshot, now: int, grace: int, flags: Flags, plan: Plan, d: string)
    requires Live(snap, now, grace, d) && d in st.rows
    ensures var after := AfterAudit(st, snap, now, grace, flags, plan);
            d in after.rows && after.rows[d] == st.rows[d]
  {
    OnlyRowsAtRiskGo(st, snap, now, grace, flags, plan, d);
  }

  /** The base layer is kept, tracked or not, unless a stale unreferenced row names it. */
  lemma BaseLayerKept(st: State, snap: Snapshot, now: int, grace: int, flags: Flags, plan: Plan)
    requires BASE_LAYER !in StaleIds(snap, now, grace)
    ensures var after := AfterAudit(st, snap, now, grace, flags, plan);
      && (BASE_LAYER in st.layers ==> BASE_LAYER in after.layers && after.layers[BASE_LAYER] == st.layers[BASE_LAYER])
      && (BASE_LAYER in snap.layerDirs && BASE_LAYER in st.rows ==>
            BASE_LAYER in after.rows && after.rows[BASE_LAYER] == st.rows[BASE_LAYER])
  {
    BaseName();
    if BASE_LAYER in st.layers { OnlyDirsAtRiskChange(st, snap, now, grace, flags, plan, BASE_LAYER); }
    if BASE_LAYER in snap.layerDirs && BASE_LAYER in st.rows {
      OnlyRowsAtRiskGo(st, snap, now, grace, flags, plan, BASE_LAYER);
    }
  }

  /** The upper directory of a known session is never touched. */
  lemma KnownUpperKept(st: State, snap: Snapshot, now: int, grace: int, flags: Flags, plan: Plan, s: string)
    requires s in snap.sessions && s in st.uppers
    ensures var after := AfterAudit(st, snap, now, grace, flags, plan);
            s in after.uppers && after.uppers[s] == st.uppers[s]
  {
    ReportMembers(snap, now, grace, s);
  }

  /** The race the command leaves open: a layer whose directory appeared after the listing
      but whose row was read loses that row exactly when it is not yet referenced. */
  lemma LatePublishedRow(st: State, snap: Snapshot, now: int, grace: int, reclaim: bool, plan: Plan, l: Layer)
    requires plan.NothingFails()
    requires l in snap.layers && l.id != "" && l.id !in snap.layerDirs && l.id in st.rows
    ensures l.id !in AfterAudit(st, snap, now, grace, Flags(reclaim, true), plan).rows <==> st.rows[l.id].refCount <= 0
  {
    ReportMembers(snap, now, grace, l.id);
    var r := ReportOf(snap, now, grace);
    var rows1 := StaleRowsAfter(st.rows, r, Flags(reclaim, true), plan);
    DeletesFrame(st.rows, r.unreferenced, plan.staleDb);
    DeletesAll(rows1, r.rowOrphans, plan.rowDb);
    DeletesFrame(rows1, r.rowOrphans, plan.rowDb);
  }

  // ---------------------------------------------------------------- convergence

  /** The states that one undisturbed `--reclaim --reclaim-pg` run cleans completely. */
  ghost predicate Reclaimable(st: State, sessions: set<string>, now: int, grace: int) {
    && (forall d :: d in st.layers && Visible(d) && IsStaging(d) ==>
          SafeName(d) && (d in st.rows ==> IsStale(st.rows[d], now, grace)))
    && (forall d :: d in st.layers && Visible(d) && !SafeName(d) ==>
          d in st.rows && !IsStale(st.rows[d], now, grace))
    && (forall id :: id in st.rows && id != "" && !(id in st.layers && Visible(id)) ==> st.rows[id].refCount <= 0)
    && (forall d :: d in st.uppers && Visible(d) && d !in sessions ==> SafeName(d))
  }

  /** The state after an undisturbed run with both flags, entry by entry. */
  lemma UndisturbedRun(st: State, snap: Snapshot, now: int, grace: int, plan: Plan, d: string)
    requires Observes(snap, st) && Keyed(st) && plan.NothingFails()
    ensures var after := AfterAudit(st, snap, now, grace, Flags(true, true), plan);
      && (d in after.layers <==>
          (d in st.layers &&
           !(SafeName(d) && ((Visible(d) && d != BASE_LAYER && (IsStaging(d) || d !in st.rows))
                             || (d in st.rows && IsStale(st.rows[d], now, grace))))))
      && (d in after.uppers <==> d in st.uppers && !(SafeName(d) && Visible(d) && d !in snap.sessions))
      && (d in after.rows <==>
          (d in st.rows &&
           (st.rows[d].refCount > 0 ||
            !(IsStale(st.rows[d], now, grace) || (d != "" && !(d in st.layers && Visible(d)))))))
      && (d in after.rows ==> after.rows[d] == st.rows[d])
  {
    hide IsStaging, SafeName, ReportOf;
    var r := ReportOf(snap, now, grace);
    ObservedMembers(snap, st, now, grace, d);
    var rows1 := AfterDeletes(st.rows, r.unreferenced, plan.staleDb);
    DeletesAll(st.rows, r.unreferenced, plan.staleDb);
    DeletesFrame(st.rows, r.unreferenced, plan.staleDb);
    DeletesAll(rows1, r.rowOrphans, plan.rowDb);
    DeletesFrame(rows1, r.rowOrphans, plan.rowDb);
    BaseName();
  }

  /** A report is clean exactly when no name falls in any class. */
  lemma CleanMeans(snap: Snapshot, st: State, now: int, grace: int)
    requires Observes(snap, st) && Keyed(st)
    ensures ReportOf(snap, now, grace).Clean() <==>
      && (forall d :: d in st.layers && Visible(d) ==> !IsStaging(d) && (d == BASE_LAYER || d in st.rows))
      && (forall id :: id in st.rows ==>
            (!IsStale(st.rows[id], now, grace) && (id == "" || (id in st.layers && Visible(id)))))
      && (forall d :: d in st.uppers && Visible(d) ==> d in snap.sessions)
  {
    hide IsStaging, SafeName, ReportOf;
    var r := ReportOf(snap, now, grace);
    BaseName();
    if r.Clean() {
      forall d { ObservedMembers(snap, st, now, grace, d); }
    } else {
      var all := r.orphanLayers + r.staging + r.unreferenced + r.rowOrphans + r.orphanUppers;
      assert |all| > 0;
      var d := all[0];
      assert d in all;
      ObservedMembers(snap, st, now, grace, d);
    }
  }

  /** Convergence: after an undisturbed run with both flags a second audit at the same clock
      is clean if and only if the first state was reclaimable. */
  lemma ConvergesExactlyWhenReclaimable(
      st: State, first: Snapshot, second: Snapshot, now: int, grace: int, plan: Plan)
    requires Observes(first, st) && Keyed(st) && plan.NothingFails()
    requires Observes(second, AfterAudit(st, first, now, grace, Flags(true, true), plan))
    requires second.sessions == first.sessions
    ensures ReportOf(second, now, grace).Clean() <==> Reclaimable(st, first.sessions, now, grace)
  {
    hide IsStaging, SafeName, ReportOf;
    var after := AfterAudit(st, first, now, grace, Flags(true, true), plan);
    BaseName();
    forall d
      ensures d in after.rows ==> d in st.rows && after.rows[d] == st.rows[d]
    {
      UndisturbedRun(st, first, now, grace, plan, d);
    }
    CleanMeans(second, after, now, grace);
    if Reclaimable(st, first.sessions, now, grace) {
      forall d { UndisturbedRun(st, first, now, grace, plan, d); }
    } else {
      NotReclaimableStaysDirty(st, first, now, grace, plan, after);
    }
  }

  lemma NotReclaimableStaysDirty(st: State, first: Snapshot, now: int, grace: int, plan: Plan, after: State)
    requires Observes(first, st) && Keyed(st) && plan.NothingFails()
    requires after == AfterAudit(st, first, now, grace, Flags(true, true), plan)
    ensures
      || Reclaimable(st, first.sessions, now, grace)
      || (exists d :: d in after.layers && Visible(d) && (IsStaging(d) || (d != BASE_LAYER && d !in after.rows)))
      || (exists id :: id in after.rows && id != "" && !(id in after.layers && Visible(id)))
      || (exists d :: d in after.uppers && Visible(d) && d !in first.sessions)
  {
    hide IsStaging, SafeName, ReportOf;
    BaseName();
    if d :| d in st.layers && Visible(d) && IsStaging(d) &&
            !(SafeName(d) && (d in st.rows ==> IsStale(st.rows[d], now, grace))) {
      UndisturbedRun(st, first, now, grace, plan, d);
    } else if d :| d in st.layers && Visible(d) && !SafeName(d) &&
                   !(d in st.rows && !IsStale(st.rows[d], now, grace)) {
      UndisturbedRun(st, first, now, grace, plan, d);
    } else if id :| id in st.rows && id != "" && !(id in st.layers && Visible(id)) && st.rows[id].refCount > 0 {
      UndisturbedRun(st, first, now, grace, plan, id);
    } else if d :| d in st.uppers && Visible(d) && d !in first.sessions && !SafeName(d) {
      UndisturbedRun(st, first, now, grace, plan, d);
    }
  }

  /** One case outside the reclaimable states: a referenced row without a directory is reported,
      its deletion is refused, and the next audit reports it again, however often one reclaims. */
  lemma ReferencedRowStaysReported(st: State, first: Snapshot, second: Snapshot, now: int, grace: int, plan: Plan, id: string)
    requires Observes(first, st) && Keyed(st) && plan.NothingFails()
    requires id in st.rows && id != "" && id !in st.layers && st.rows[id].refCount > 0
    requires Observes(second, AfterAudit(st, first, now, grace, Flags(true, true), plan))
    ensures id in ReportOf(first, now, grace).rowOrphans && id in ReportOf(second, now, grace).rowOrphans
  {
    hide IsStaging, SafeName, ReportOf;
    var after := AfterAudit(st, first, now, grace, Flags(true, true), plan);
    forall d ensures d in after.rows ==> d in st.rows && after.rows[d] == st.rows[d] {
      UndisturbedRun(st, first, now, grace, plan, d);
    }
    ObservedMembers(first, st, now, grace, id);
    UndisturbedRun(st, first, now, grace, plan, id);
    ObservedMembers(second, after, now, grace, id);
  }

  // ---------------------------------------------------------------- recovery from failed runs

  /** The effect of any run, whatever fails in it, on one name. */
  lemma AnyRun(st: State, snap: Snapshot, now: int, grace: int, flags: Flags, plan: Plan, d: string)
    requires Observes(snap, st) && Keyed(st)
    ensures var after := AfterAudit(st, snap, now, grace, flags, plan);
      && (d in after.layers ==> d in st.layers)
      && (d in after.uppers ==> d in st.uppers)
      && (d in after.rows ==> d in st.rows && after.rows[d] == st.rows[d])
      && (d in st.rows && d in st.layers && Visible(d) && !IsStale(st.rows[d], now, grace) ==> d in after.rows)
      && (d in st.layers && d !in after.layers ==>
            IsStaging(d) || d !in st.rows || IsStale(st.rows[d], now, grace))
  {
    hide IsStaging, SafeName, ReportOf, IsStale;
    var r := ReportOf(snap, now, grace);
    ObservedMembers(snap, st, now, grace, d);
    var rows1 := StaleRowsAfter(st.rows, r, flags, plan);
    DeletesFrame(st.rows, r.unreferenced, plan.staleDb);
    DeletesFrame(rows1, r.rowOrphans, plan.rowDb);
  }

  /** No failure pattern turns a reclaimable state into one that cannot be reclaimed. */
  lemma FailureKeepsReclaimable(st: State, snap: Snapshot, now: int, grace: int, flags: Flags, plan: Plan)
    requires Observes(snap, st) && Keyed(st)
    requires Reclaimable(st, snap.sessions, now, grace)
    ensures var after := AfterAudit(st, snap, now, grace, flags, plan);
            Keyed(after) && Reclaimable(after, snap.sessions, now, grace)
  {
    hide IsStaging, SafeName, AfterAudit;
    forall d { AnyRun(st, snap, now, grace, flags, plan, d); }
  }

  /** One audit command with everything that can vary in it. */
  datatype Run = Run(snap: Snapshot, flags: Flags, plan: Plan)

  function AfterRuns(st: State, runs: seq<Run>, now: int, grace: int): State {
    if runs == [] then st
    else var prev := AfterRuns(st, runs[..|runs| - 1], now, grace);
         var run := runs[|runs| - 1];
         AfterAudit(prev, run.snap, now, grace, run.flags, run.plan)
  }

  ghost predicate FaithfulRuns(st: State, runs: seq<Run>, sessions: set<string>, now: int, grace: int) {
    runs != [] ==>
      && FaithfulRuns(st, runs[..|runs| - 1], sessions, now, grace)
      && runs[|runs| - 1].snap.sessions == sessions
      && Observes(runs[|runs| - 1].snap, AfterRuns(st, runs[..|runs| - 1], now, grace))
  }

  lemma {:induction false} FailedRunsStayReclaimable(
      st: State, runs: seq<Run>, sessions: set<string>, now: int, grace: int)
    requires Keyed(st) && Reclaimable(st, sessions, now, grace)
    requires FaithfulRuns(st, runs, sessions, now, grace)
    ensures Keyed(AfterRuns(st, runs, now, grace)) && Reclaimable(AfterRuns(st, runs, now, grace), sessions, now, grace)
  {
    hide AfterAudit, Reclaimable, Keyed;
    if runs != [] {
      var run := runs[|runs| - 1];
      FailedRunsStayReclaimable(st, runs[..|runs| - 1], sessions, now, grace);
      FailureKeepsReclaimable(
        AfterRuns(st, runs[..|runs| - 1], now, grace), run.snap, now, grace, run.flags, run.plan);
    }
  }

  /** Any number of runs that fail anyhow, then one undisturbed run: nothing is left to report. */
  lemma FailedRunsAreRecoverable(
      st: State, runs: seq<Run>, last: Snapshot, final: Snapshot, now: int, grace: int, plan: Plan)
    requires Keyed(st) && Reclaimable(st, last.sessions, now, grace)
    requires FaithfulRuns(st, runs, last.sessions, now, grace)
    requires Observes(last, AfterRuns(st, runs, now, grace)) && plan.NothingFails()
    requires Observes(final, AfterAudit(AfterRuns(st, runs, now, grace), last, now, grace, Flags(true, true), plan))
    requires final.sessions == last.sessions
    ensures ReportOf(final, now, grace).Clean()
  {
    hide AfterAudit, Reclaimable, Keyed;
    FailedRunsStayReclaimable(st, runs, last.sessions, now, grace);
    ConvergesExactlyWhenReclaimable(AfterRuns(st, runs, now, grace), last, final, now, grace, plan);
  }
}
