/** The writing half of session repair: fresh backup names, and what a run leaves of every
    file, wherever it stops. */
module TranscriptRepair {
  import opened Seqs
  import opened Decimal

  const MAX_LINE_BYTES := 10 * 1024 * 1024

  type Lines = seq<string>

  /** A scanned transcript with the number of oversized lines found in it. */
  datatype Report = Report(path: string, skipped: nat)

  /** How one repair ends: a failed backup write leaves anything under the backup name. */
  datatype Outcome = Works | OpenFails | BackupFails(left: Option<Lines>) | RewriteFails

  function FitsTest(): string -> bool { line => |line| <= MAX_LINE_BYTES }

  function Kept(content: Lines): Lines { Filter(content, FitsTest()) }

  /** The i-th backup name tried for a path. */
  function Candidate(path: string, i: nat): string {
    if i == 0 then path + ".bak" else path + ".bak." + Itoa(i)
  }

  lemma CandidatesDiffer(path: string, i: nat, j: nat)
    requires Candidate(path, i) == Candidate(path, j)
    ensures i == j
  {
    var a, b := Candidate(path, i), Candidate(path, j);
    var cut := |path + ".bak."|;
    if i > 0 && j > 0 {
      assert a[cut..] == Itoa(i) && b[cut..] == Itoa(j);
      ItoaInjective(i, j);
    }
  }

  /** The first k names tried. */
  ghost function Tried(path: string, k: nat): set<string> { set j: nat | j < k :: Candidate(path, j) }

  lemma TriedStep(path: string, k: nat)
    ensures Tried(path, k + 1) == Tried(path, k) + {Candidate(path, k)}
    ensures Candidate(path, k) !in Tried(path, k)
  {
    if Candidate(path, k) in Tried(path, k) {
      var j: nat :| j < k && Candidate(path, j) == Candidate(path, k);
      CandidatesDiffer(path, j, k);
    }
    hide Candidate;
  }

  lemma {:induction false} TriedSize(path: string, k: nat)
    ensures |Tried(path, k)| == k
  {
    if k > 0 {
      hide Tried, Candidate;
      TriedStep(path, k - 1);
      TriedSize(path, k - 1);
    }
  }

  class Disk {
    var files: map<string, Lines>

    /** The first candidate name that no file has. */
    method FreshBackup(path: string) returns (backup: string, ghost k: nat)
      ensures backup == Candidate(path, k) && backup !in files
      ensures forall j :: 0 <= j < k ==> Candidate(path, j) in files
    {
      backup := path + ".bak";
      k := 0;
      var i := 1;
      while backup in files
        invariant i == k + 1 && backup == Candidate(path, k)
        invariant Tried(path, k) <= files.Keys
        decreases |files| - k
      {
        TriedStep(path, k);
        TriedSize(path, k + 1);
        SubsetSize(Tried(path, k + 1), files.Keys);
        backup := path + ".bak." + Itoa(i);
        k := k + 1;
        i := i + 1;
      }
    }

    /** Copies the transcript to the backup name, then rewrites it without oversized lines. */
    method RepairOversized(path: string, backup: string, outcome: Outcome) returns (ok: bool)
      requires backup !in files
      modifies this
      ensures ok <==> path !in old(files) || outcome.Works? ||
                      (Kept(old(files)[path]) == old(files)[path] && !outcome.OpenFails?)
      ensures files == AfterRepair(old(files), path, backup, outcome)
    {
      if path !in files {
        return true;
      }
      if outcome.OpenFails? {
        return false;
      }
      var orig := files[path];
      var kept := Kept(orig);
      KeptLength(orig);
      if |orig| - |kept| == 0 {
        return true;
      }
      if outcome.BackupFails? {
        if outcome.left.Some? {
          files := files[backup := outcome.left.value];
        }
        return false;
      }
      files := files[backup := orig];
      if outcome.RewriteFails? {
        return false;
      }
      files := files[path := kept];
      ok := true;
    }

    /** Repairs one reported transcript under a fresh backup name. */
    method RepairOne(r: Report, outcome: Outcome, ghost before: map<string, Lines>, ghost paths: seq<string>)
      returns (ok: bool)
      requires Intact(before, files, paths) && r.path in paths && Transcripts(paths)
      requires r.path in before ==> r.path in files && files[r.path] == before[r.path]
      modifies this
      ensures Intact(before, files, paths)
      ensures forall f :: f in old(files) && f != r.path ==> f in files && files[f] == old(files)[f]
      ensures r.path in before ==> r.path in files && files[r.path] == if ok then Kept(before[r.path]) else before[r.path]
    {
      var backup;
      ghost var k;
      backup, k := FreshBackup(r.path);
      CandidateIsNoTranscript(r.path, k);
      StepKeepsIntact(before, files, paths, r.path, backup, outcome);
      hide Intact, Kept;
      ok := RepairOversized(r.path, backup, outcome);
    }

    /** Repairs the reported transcripts in turn and stops at the first failure. Whatever
        happens no content is lost; the transcripts before the failure are repaired, those from
        it on are untouched. */
    method RepairAll(reports: seq<Report>, outcomes: nat -> Outcome) returns (ok: bool, done: nat)
      requires NoDup(Paths(reports)) && Transcripts(Paths(reports))
      modifies this
      ensures Intact(old(files), files, Paths(reports))
      ensures done <= |reports| && (ok <==> done == |reports|)
      ensures RepairedUpTo(old(files), files, reports, done) && UntouchedFrom(old(files), files, reports, done)
    {
      hide Intact, Kept, Transcripts, NoDup;
      ghost var before := files;
      ghost var paths := Paths(reports);
      NothingLostYet(before, reports);
      ok, done := true, 0;
      while done < |reports|
        invariant 0 <= done <= |reports| && ok
        invariant Intact(before, files, paths)
        invariant RepairedUpTo(before, files, reports, done) && UntouchedFrom(before, files, reports, done)
      {
        if reports[done].skipped > 0 {
          ghost var mid := files;
          assert paths[done] == reports[done].path;
          var repaired := RepairOne(reports[done], outcomes(done), before, paths);
          ProgressStep(before, mid, files, reports, done);
          if !repaired {
            return false, done;
          }
        }
        done := done + 1;
      }
    }
  }

  ghost predicate Transcripts(paths: seq<string>) {
    forall p :: p in paths ==> HasSuffix(p, ".jsonl")
  }

  ghost predicate RepairedUpTo(before: map<string, Lines>, now: map<string, Lines>, reports: seq<Report>, n: nat) {
    forall i :: 0 <= i < n && i < |reports| && reports[i].skipped > 0 && reports[i].path in before ==>
      reports[i].path in now && now[reports[i].path] == Kept(before[reports[i].path])
  }

  ghost predicate UntouchedFrom(before: map<string, Lines>, now: map<string, Lines>, reports: seq<Report>, n: nat) {
    forall i :: n <= i < |reports| && reports[i].path in before ==>
      reports[i].path in now && now[reports[i].path] == before[reports[i].path]
  }

  lemma NothingLostYet(before: map<string, Lines>, reports: seq<Report>)
    ensures Intact(before, before, Paths(reports))
    ensures RepairedUpTo(before, before, reports, 0) && UntouchedFrom(before, before, reports, 0)
  {
  }

  lemma ProgressStep(before: map<string, Lines>, mid: map<string, Lines>, now: map<string, Lines>,
                     reports: seq<Report>, n: nat)
    requires NoDup(Paths(reports)) && n < |reports|
    requires RepairedUpTo(before, mid, reports, n) && UntouchedFrom(before, mid, reports, n)
    requires forall f :: f in mid && f != reports[n].path ==> f in now && now[f] == mid[f]
    ensures RepairedUpTo(before, now, reports, n) && UntouchedFrom(before, now, reports, n + 1)
  {
    hide Kept;
    forall i | 0 <= i < |reports| && i != n ensures reports[i].path != reports[n].path {
      assert Paths(reports)[i] != Paths(reports)[n];
    }
  }

  function Paths(reports: seq<Report>): (r: seq<string>)
    ensures |r| == |reports| && forall i :: 0 <= i < |r| ==> r[i] == reports[i].path
  {
    seq(|reports|, i requires 0 <= i < |reports| => reports[i].path)
  }

  lemma {:induction false} KeptLength(content: Lines)
    ensures |Kept(content)| <= |content|
    ensures |Kept(content)| == |content| ==> Kept(content) == content
  {
    if content != [] {
      KeptLength(content[..|content| - 1]);
    }
  }

  /** What is kept are, in order, exactly the lines of at most ten megabytes. */
  lemma KeptAreTheFittingLines(content: Lines)
    ensures Selection(Kept(content), content)
    ensures forall line :: line in Kept(content) <==> line in content && |line| <= 10_485_760
    ensures Kept(content) == content <==> forall line :: line in content ==> |line| <= 10_485_760
  {
    FilterIsSelection(content, FitsTest());
    FilterMembers(content, FitsTest());
    if forall line :: line in content ==> |line| <= 10_485_760 { AllFit(content); }
    hide Selection;
  }

  lemma {:induction false} AllFit(content: Lines)
    requires forall line :: line in content ==> |line| <= 10_485_760
    ensures Kept(content) == content
  {
    if content != [] {
      AllFit(content[..|content| - 1]);
    }
  }

  function AfterRepair(files: map<string, Lines>, path: string, backup: string, outcome: Outcome): map<string, Lines> {
    if path !in files || outcome.OpenFails? || Kept(files[path]) == files[path] then files
    else if outcome.BackupFails? then
      if outcome.left.Some? then files[backup := outcome.left.value] else files
    else if outcome.RewriteFails? then files[backup := files[path]]
    else files[backup := files[path]][path := Kept(files[path])]
  }

  /** No content is lost: every old file is still there unchanged, or it is one of the named
      transcripts, now without its oversized lines, and its old content is in a new file. */
  ghost predicate Intact(before: map<string, Lines>, after: map<string, Lines>, paths: seq<string>) {
    forall f :: f in before ==>
      f in after &&
      (after[f] == before[f] ||
       (f in paths && after[f] == Kept(before[f]) && BackedUp(before, after, paths, before[f])))
  }

  ghost predicate BackedUp(before: map<string, Lines>, after: map<string, Lines>, paths: seq<string>, content: Lines) {
    exists b :: b in after && b !in before && b !in paths && after[b] == content
  }

  lemma StepKeepsIntact(before: map<string, Lines>, mid: map<string, Lines>, paths: seq<string>,
                        path: string, backup: string, outcome: Outcome)
    requires Intact(before, mid, paths)
    requires backup !in mid && backup !in paths && path in paths
    requires path in before ==> path in mid && mid[path] == before[path]
    ensures Intact(before, AfterRepair(mid, path, backup, outcome), paths)
  {
    hide Kept;
    var after := AfterRepair(mid, path, backup, outcome);
    forall f | f in before
      ensures f in after && (after[f] == before[f] ||
        (f in paths && after[f] == Kept(before[f]) && BackedUp(before, after, paths, before[f])))
    {
      if f == path {
        if after[f] != before[f] { assert after[backup] == before[f]; }
      } else {
        assert backup != f && after[f] == mid[f];
        if mid[f] != before[f] {
          var b :| b in mid && b !in before && b !in paths && mid[b] == before[f];
          assert after[b] == before[f];
        }
      }
    }
  }

  /** A backup name is never a transcript name. */
  lemma CandidateIsNoTranscript(path: string, i: nat)
    ensures !HasSuffix(Candidate(path, i), ".jsonl")
  {
    var name := Candidate(path, i);
    if i == 0 {
      assert name[|name| - 1] == 'k';
    } else {
      assert IsDigit(name[|name| - 1]) by { assert name[|name| - 1] == Itoa(i)[|Itoa(i)| - 1]; }
    }
    assert ".jsonl"[5] == 'l' && name[|name| - 1] != 'l';
    if |name| >= 6 {
      assert name[|name| - 6..][5] == name[|name| - 1];
    }
  }

  /** The scan's count for each transcript there is. */
  ghost predicate ScannedRight(before: map<string, Lines>, reports: seq<Report>) {
    forall i :: 0 <= i < |reports| && reports[i].path in before ==>
      reports[i].skipped == |before[reports[i].path]| - |Kept(before[reports[i].path])|
  }

  /** After a run that went through, on counts that were right, every transcript named consists
      of its fitting lines alone. */
  lemma CompletedRunCleans(before: map<string, Lines>, now: map<string, Lines>, reports: seq<Report>, i: nat)
    requires ScannedRight(before, reports) && RepairedUpTo(before, now, reports, |reports|)
    requires Intact(before, now, Paths(reports))
    requires i < |reports| && reports[i].path in before
    ensures reports[i].path in now && now[reports[i].path] == Kept(before[reports[i].path])
    ensures forall line :: line in now[reports[i].path] ==> |line| <= 10_485_760
  {
    var content := before[reports[i].path];
    KeptLength(content);
    KeptAreTheFittingLines(content);
    hide Kept, Selection;
  }
}
