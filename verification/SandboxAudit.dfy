/** The sandbox storage audit: two disk listings are diffed against the database,
    and the differences are deleted in steps that may each fail partway. */
module SandboxAudit {
  import opened Seqs

  const STAGING_PREFIX := "__staging-"
  const BASE_LAYER := "@base"

  /** A tracked layer as the database lists it. */
  datatype Layer = Layer(id: string, refCount: int, addedAt: int)

  /** What one audit reads: the two listings, the layer rows, the known sessions. */
  datatype Snapshot = Snapshot(
    layerDirs: seq<string>,
    upperDirs: seq<string>,
    layers: seq<Layer>,
    sessions: set<string>)

  datatype Report = Report(
    orphanLayers: seq<string>,
    staging: seq<string>,
    unreferenced: seq<string>,
    rowOrphans: seq<string>,
    orphanUppers: seq<string>)
  {
    predicate Clean() {
      orphanLayers == [] && staging == [] && unreferenced == [] && rowOrphans == [] && orphanUppers == []
    }
  }

  /** Both volumes and the layer table. A directory maps to a digest of its tree. */
  datatype State = State(layers: map<string, nat>, uppers: map<string, nat>, rows: map<string, Layer>)

  datatype Flags = Flags(reclaim: bool, reclaimPg: bool)

  /** How a removal pod ended; a failed pod leaves whatever it had not removed, possibly damaged. */
  datatype PodRun = Succeeded | Failed(left: map<string, nat>)

  /** How the database answered one DeleteLayer call. */
  datatype DbRun = Answered | LostBefore | LostAfter

  datatype Plan = Plan(
    orphanPod: PodRun,
    stalePod: PodRun,
    upperPod: PodRun,
    staleDb: nat -> DbRun,
    rowDb: nat -> DbRun)
  {
    ghost predicate NothingFails() {
      orphanPod.Succeeded? && stalePod.Succeeded? && upperPod.Succeeded? &&
      (forall i :: staleDb(i).Answered?) && (forall i :: rowDb(i).Answered?)
    }
  }

  // ---------------------------------------------------------------- classification

  predicate IsStaging(d: string) { HasPrefix(d, STAGING_PREFIX) }

  predicate IsStale(l: Layer, now: int, grace: int) { l.refCount == 0 && now - l.addedAt > grace }

  /** The name filter of the removal script. */
  predicate SafeName(d: string) { '/' !in d && !ContainsText(d, "..") && d != "" }

  /** Names that a plain directory listing shows. */
  predicate Visible(d: string) { d != "" && d[0] != '.' }

  function OrphanTest(ids: set<string>): string -> bool {
    d => d != "" && d != BASE_LAYER && !IsStaging(d) && d !in ids
  }

  function StagingTest(): string -> bool { d => d != "" && d != BASE_LAYER && IsStaging(d) }

  function StaleTest(now: int, grace: int): Layer -> bool { (l: Layer) => IsStale(l, now, grace) }

  function MissingTest(disk: set<string>): Layer -> bool { (l: Layer) => l.id !in disk && l.id != "" }

  function UnknownTest(sessions: set<string>): string -> bool { d => d != "" && d !in sessions }

  function Ids(ls: seq<Layer>): (r: seq<string>)
    ensures |r| == |ls| && forall i :: 0 <= i < |ls| ==> r[i] == ls[i].id
  {
    seq(|ls|, i requires 0 <= i < |ls| => ls[i].id)
  }

  function ReportOf(snap: Snapshot, now: int, grace: int): Report {
    Report(
      Filter(snap.layerDirs, OrphanTest(Elems(Ids(snap.layers)))),
      Filter(snap.layerDirs, StagingTest()),
      Ids(Filter(snap.layers, StaleTest(now, grace))),
      Ids(Filter(snap.layers, MissingTest(Elems(snap.layerDirs)))),
      Filter(snap.upperDirs, UnknownTest(snap.sessions)))
  }

  lemma IdsStep(layers: seq<Layer>, i: nat)
    requires i < |layers|
    ensures Elems(Ids(layers[..i + 1])) == Elems(Ids(layers[..i])) + {layers[i].id}
  {
    assert Ids(layers[..i + 1]) == Ids(layers[..i]) + [layers[i].id];
  }

  method ScanRows(layers: seq<Layer>, now: int, grace: int) returns (ids: set<string>, unreferenced: seq<string>)
    ensures ids == Elems(Ids(layers))
    ensures unreferenced == Ids(Filter(layers, StaleTest(now, grace)))
  {
    ids := {};
    var stale: seq<Layer> := [];
    for i := 0 to |layers|
      invariant ids == Elems(Ids(layers[..i]))
      invariant stale == Filter(layers[..i], StaleTest(now, grace))
    {
      var l := layers[i];
      FilterStep(layers, i, StaleTest(now, grace));
      IdsStep(layers, i);
      ids := ids + {l.id};
      if l.refCount == 0 && now - l.addedAt > grace {
        stale := stale + [l];
      }
    }
    assert layers[..|layers|] == layers;
    unreferenced := Ids(stale);
  }

  method ScanLayerDirs(dirs: seq<string>, ids: set<string>) returns (orphans: seq<string>, staging: seq<string>)
    ensures orphans == Filter(dirs, OrphanTest(ids))
    ensures staging == Filter(dirs, StagingTest())
  {
    orphans, staging := [], [];
    for i := 0 to |dirs|
      invariant orphans == Filter(dirs[..i], OrphanTest(ids))
      invariant staging == Filter(dirs[..i], StagingTest())
    {
      var d := dirs[i];
      FilterStep(dirs, i, OrphanTest(ids));
      FilterStep(dirs, i, StagingTest());
      if d == "" || d == BASE_LAYER {
        continue;
      }
      if HasPrefix(d, STAGING_PREFIX) {
        staging := staging + [d];
        continue;
      }
      if d !in ids {
        orphans := orphans + [d];
      }
    }
    assert dirs[..|dirs|] == dirs;
  }

  method ScanMissing(layers: seq<Layer>, dirs: seq<string>) returns (missing: seq<string>)
    ensures missing == Ids(Filter(layers, MissingTest(Elems(dirs))))
  {
    var disk: set<string> := {};
    for i := 0 to |dirs|
      invariant disk == Elems(dirs[..i])
    {
      disk := disk + {dirs[i]};
    }
    assert dirs[..|dirs|] == dirs;
    var rows: seq<Layer> := [];
    for i := 0 to |layers|
      invariant rows == Filter(layers[..i], MissingTest(disk))
    {
      FilterStep(layers, i, MissingTest(disk));
      if layers[i].id !in disk && layers[i].id != "" {
        rows := rows + [layers[i]];
      }
    }
    assert layers[..|layers|] == layers;
    missing := Ids(rows);
  }

  method ScanUpperDirs(dirs: seq<string>, sessions: set<string>) returns (orphans: seq<string>)
    ensures orphans == Filter(dirs, UnknownTest(sessions))
  {
    orphans := [];
    for i := 0 to |dirs|
      invariant orphans == Filter(dirs[..i], UnknownTest(sessions))
    {
      FilterStep(dirs, i, UnknownTest(sessions));
      if dirs[i] == "" {
        continue;
      }
      if dirs[i] !in sessions {
        orphans := orphans + [dirs[i]];
      }
    }
    assert dirs[..|dirs|] == dirs;
  }

  /** Phases 2 and 3: the set-building and diff loops. */
  method BuildReport(snap: Snapshot, now: int, grace: int) returns (r: Report)
    ensures r == ReportOf(snap, now, grace)
  {
    var ids, unreferenced := ScanRows(snap.layers, now, grace);
    var orphanLayers, staging := ScanLayerDirs(snap.layerDirs, ids);
    var missing := ScanMissing(snap.layers, snap.layerDirs);
    var orphanUppers := ScanUpperDirs(snap.upperDirs, snap.sessions);
    r := Report(orphanLayers, staging, unreferenced, missing, orphanUppers);
  }

  // ---------------------------------------------------------------- reclaim steps

  predicate Requested(d: string, names: seq<string>) { d in names && SafeName(d) }

  /** The volume after a removal pod ran over the names. */
  function AfterPod(dirs: map<string, nat>, names: seq<string>, run: PodRun): map<string, nat> {
    map d | d in dirs && (!Requested(d, names) || (run.Failed? && d in run.left)) ::
      if Requested(d, names) then (if run.Failed? && d in run.left then run.left[d] else 0) else dirs[d]
  }

  /** One DeleteLayer call: it refuses a missing row and a row that is still referenced. */
  function AfterDelete(rows: map<string, Layer>, id: string, run: DbRun): map<string, Layer> {
    if run.LostBefore? || id !in rows || rows[id].refCount > 0 then rows else rows - {id}
  }

  function AfterDeletes(rows: map<string, Layer>, ids: seq<string>, db: nat -> DbRun): map<string, Layer> {
    if ids == [] then rows
    else AfterDelete(AfterDeletes(rows, ids[..|ids| - 1], db), ids[|ids| - 1], db(|ids| - 1))
  }

  function LayersAfter(dirs: map<string, nat>, r: Report, flags: Flags, plan: Plan): map<string, nat> {
    if !flags.reclaim then dirs
    else AfterPod(AfterPod(dirs, r.orphanLayers + r.staging, plan.orphanPod), r.unreferenced, plan.stalePod)
  }

  function UppersAfter(dirs: map<string, nat>, r: Report, flags: Flags, plan: Plan): map<string, nat> {
    if !flags.reclaim then dirs else AfterPod(dirs, r.orphanUppers, plan.upperPod)
  }

  /** Stale rows go only when the pod that removes their directories succeeded. */
  function StaleRowsAfter(rows: map<string, Layer>, r: Report, flags: Flags, plan: Plan): map<string, Layer> {
    if flags.reclaim && plan.stalePod.Succeeded? then AfterDeletes(rows, r.unreferenced, plan.staleDb) else rows
  }

  function RowsAfter(rows: map<string, Layer>, r: Report, flags: Flags, plan: Plan): map<string, Layer> {
    var rows1 := StaleRowsAfter(rows, r, flags, plan);
    if flags.reclaimPg then AfterDeletes(rows1, r.rowOrphans, plan.rowDb) else rows1
  }

  /** One whole command: audit the snapshot, then reclaim in the current state. */
  function AfterAudit(st: State, snap: Snapshot, now: int, grace: int, flags: Flags, plan: Plan): State {
    var r := ReportOf(snap, now, grace);
    State(LayersAfter(st.layers, r, flags, plan),
          UppersAfter(st.uppers, r, flags, plan),
          RowsAfter(st.rows, r, flags, plan))
  }

  lemma OneRowLess(rows: map<string, Layer>, id: string)
    ensures id in rows ==> |rows - {id}| + 1 == |rows|
  {
    if id in rows { assert rows.Keys == (rows - {id}).Keys + {id}; }
  }

  lemma PodOnNothing(dirs: map<string, nat>, run: PodRun)
    ensures AfterPod(dirs, [], run) == dirs
  {
  }

  lemma CleanReportChangesNothing(st: State, r: Report, flags: Flags, plan: Plan)
    requires r.Clean()
    ensures LayersAfter(st.layers, r, flags, plan) == st.layers
    ensures UppersAfter(st.uppers, r, flags, plan) == st.uppers
    ensures RowsAfter(st.rows, r, flags, plan) == st.rows
  {
    PodOnNothing(st.layers, plan.orphanPod);
    PodOnNothing(st.layers, plan.stalePod);
    PodOnNothing(st.uppers, plan.upperPod);
  }

  class Storage {
    var layers: map<string, nat>
    var uppers: map<string, nat>
    var rows: map<string, Layer>

    ghost function Value(): State
      reads this
    {
      State(layers, uppers, rows)
    }

    /** Builds the removal script and runs the pod on one volume. */
    method ReclaimDirs(onLayers: bool, dirs: seq<string>, run: PodRun) returns (ok: bool)
      modifies this
      ensures ok == run.Succeeded?
      ensures rows == old(rows)
      ensures layers == if onLayers then AfterPod(old(layers), dirs, run) else old(layers)
      ensures uppers == if onLayers then old(uppers) else AfterPod(old(uppers), dirs, run)
    {
      var script: seq<string> := [];
      for i := 0 to |dirs|
        invariant forall d :: d in script <==> Requested(d, dirs[..i])
        invariant rows == old(rows) && layers == old(layers) && uppers == old(uppers)
      {
        assert dirs[..i + 1] == dirs[..i] + [dirs[i]];
        if '/' in dirs[i] || ContainsText(dirs[i], "..") || dirs[i] == "" {
          continue;
        }
        script := script + [dirs[i]];
      }
      assert dirs[..|dirs|] == dirs;
      var volume := if onLayers then layers else uppers;
      var after := map d | d in volume && (d !in script || (run.Failed? && d in run.left)) ::
        if d in script then (if run.Failed? && d in run.left then run.left[d] else 0) else volume[d];
      assert after == AfterPod(volume, dirs, run);
      if onLayers { layers := after; } else { uppers := after; }
      ok := run.Succeeded?;
    }

    method DeleteLayer(id: string, run: DbRun) returns (ok: bool)
      modifies this`rows
      ensures rows == AfterDelete(old(rows), id, run)
      ensures ok <==> run.Answered? && id in old(rows) && old(rows)[id].refCount <= 0
    {
      if run.LostBefore? || id !in rows || rows[id].refCount > 0 {
        return false;
      }
      rows := rows - {id};
      ok := run.Answered?;
    }

    method DeleteLayers(ids: seq<string>, db: nat -> DbRun) returns (removed: nat)
      modifies this`rows
      ensures rows == AfterDeletes(old(rows), ids, db)
      ensures (forall i :: db(i).Answered?) ==> removed + |rows| == |old(rows)|
    {
      removed := 0;
      for i := 0 to |ids|
        invariant rows == AfterDeletes(old(rows), ids[..i], db)
        invariant (forall i :: db(i).Answered?) ==> removed + |rows| == |old(rows)|
      {
        assert ids[..i + 1][..i] == ids[..i];
        OneRowLess(rows, ids[i]);
        var ok := DeleteLayer(ids[i], db(i));
        if ok { removed := removed + 1; }
      }
      assert ids[..|ids|] == ids;
    }

    method ReclaimAny(onLayers: bool, dirs: seq<string>, run: PodRun) returns (ok: bool)
      modifies this
      ensures ok == (run.Succeeded? && dirs != [])
      ensures rows == old(rows)
      ensures layers == if onLayers then AfterPod(old(layers), dirs, run) else old(layers)
      ensures uppers == if onLayers then old(uppers) else AfterPod(old(uppers), dirs, run)
    {
      if |dirs| == 0 {
        PodOnNothing(layers, run);
        PodOnNothing(uppers, run);
        return false;
      }
      ok := ReclaimDirs(onLayers, dirs, run);
    }

    /** Phases 2 to 5 of the command. */
    method Audit(snap: Snapshot, now: int, grace: int, flags: Flags, plan: Plan) returns (r: Report)
      modifies this
      ensures r == ReportOf(snap, now, grace)
      ensures Value() == AfterAudit(old(Value()), snap, now, grace, flags, plan)
    {
      r := BuildReport(snap, now, grace);
      hide AfterPod, ReportOf;
      if |r.orphanLayers| + |r.staging| + |r.orphanUppers| == 0 && |r.rowOrphans| == 0 && |r.unreferenced| == 0 {
        CleanReportChangesNothing(Value(), r, flags, plan);
        return;
      }
      if flags.reclaim {
        var _ := ReclaimAny(true, r.orphanLayers + r.staging, plan.orphanPod);
        var ok := ReclaimAny(true, r.unreferenced, plan.stalePod);
        if ok {
          var _ := DeleteLayers(r.unreferenced, plan.staleDb);
        }
        var _ := ReclaimAny(false, r.orphanUppers, plan.upperPod);
      }
      if flags.reclaimPg {
        var _ := DeleteLayers(r.rowOrphans, plan.rowDb);
      }
    }
  }
}
