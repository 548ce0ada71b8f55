// The importer's entry points (importer.go): the synchronous import, the asynchronous job and the summary.
module ImportService {
  import opened Base
  import opened Paths
  import opened FileSystem
  import opened Snapshot
  import opened ImportContext
  import opened Classify
  import opened Scan
  import Classifier
  import opened Catalogue
  import opened Reconcile
  import opened Reimport
  import opened ImportTheorems
  import opened Schema
  import opened SchemaReimport
  import opened SchemaTheorems

  datatype Summary = Summary(
    scannedFiles: nat, importedItems: nat, updatedItems: nat, skippedFiles: nat, parseWarnings: seq<(Path, Reason)>)

  function Actions(items: seq<ResolvedItem>, action: Action): nat {
    if items == [] then 0
    else Actions(items[..|items|-1], action) + if items[|items|-1].action == action then 1 else 0
  }

  /** buildRejectWarnings: one warning per rejection, in order. */
  function Warnings(rejected: seq<RejectedItem>): seq<(Path, Reason)> {
    seq(|rejected|, i requires 0 <= i < |rejected| => (rejected[i].path, rejected[i].reason))
  }

  method BuildImportSummary(scannedDirs: nat, report: Report) returns (s: Summary)
    ensures s.scannedFiles == scannedDirs
    ensures s.importedItems == Actions(report.accepted, CreateAction) &&
            s.updatedItems == Actions(report.accepted, UpdateAction)
    ensures s.importedItems + s.updatedItems == |report.accepted|
    ensures s.skippedFiles == |report.rejected| == |s.parseWarnings|
    ensures forall i :: 0 <= i < |report.rejected| ==>
              s.parseWarnings[i] == (report.rejected[i].path, report.rejected[i].reason)
    ensures s.parseWarnings == Warnings(report.rejected)
  {
    var imported, updated := 0, 0;
    for i := 0 to |report.accepted|
      invariant imported == Actions(report.accepted[..i], CreateAction) &&
                updated == Actions(report.accepted[..i], UpdateAction)
      invariant imported + updated == i
    {
      assert report.accepted[..i+1][..i] == report.accepted[..i];
      match report.accepted[i].action
      case CreateAction => imported := imported + 1;
      case UpdateAction => updated := updated + 1;
    }
    assert report.accepted[..|report.accepted|] == report.accepted;
    s := Summary(scannedDirs, imported, updated, |report.rejected|, Warnings(report.rejected));
  }

  lemma {:induction false} AllUpdates(items: seq<ResolvedItem>)
    requires forall i :: 0 <= i < |items| ==> items[i].action == UpdateAction
    ensures Actions(items, CreateAction) == 0 && Actions(items, UpdateAction) == |items|
  {
    if items != [] {
      AllUpdates(items[..|items|-1]);
    }
  }

  /** What a second ImportLibrary into the shipped database reports: nothing imported, everything that the first one
      accepted updated, the same number skipped, and the same warnings. */
  lemma SecondSummary(cfg: Settings, providerId: string, store1: Store, store2: Store, db: Db, root: FSNode)
    requires WellFormed(root) && Walkable(root.path)
    requires Sound(db.rows) && IdsBelow(db.rows, db.next) && cfg.libraryId != ""
    requires Schematic(store1) && Schematic(store2)
    ensures var (db1, r1) := ImportTree(cfg, providerId, store1, db, root);
            var r2 := ImportTree(cfg, providerId, store2, db1, root).1;
            && Actions(r2.accepted, CreateAction) == 0
            && Actions(r2.accepted, UpdateAction) == Actions(r1.accepted, CreateAction) +
                Actions(r1.accepted, UpdateAction)
            && |r2.rejected| == |r1.rejected| && Warnings(r2.rejected) == Warnings(r1.rejected)
  {
    var (db1, r1) := ImportTree(cfg, providerId, store1, db, root);
    var r2 := ImportTree(cfg, providerId, store2, db1, root).1;
    SecondImportRepeats(cfg, providerId, store1, store2, db, root);
    assert forall i :: 0 <= i < |r2.accepted| ==> UpdatedAs(r2.accepted[i], MediaIds(r1.accepted)[i]);
    AllUpdates(r2.accepted);
    ActionsAddUp(r1.accepted);
  }

  lemma {:induction false} ActionsAddUp(items: seq<ResolvedItem>)
    ensures Actions(items, CreateAction) + Actions(items, UpdateAction) == |items|
  {
    if items != [] {
      ActionsAddUp(items[..|items|-1]);
    }
  }

  datatype JobStatus = Pending | Running | Done | Error

  /** An import_jobs row. Its writes may fail, and the importer ignores that. */
  class ImportJob {
    var status: JobStatus
    var totalItems: nat
    var doneItems: nat
    var summary: Option<Summary>

    constructor ()
      ensures status == Pending && totalItems == 0 && doneItems == 0 && summary == None
    {
      status, totalItems, doneItems, summary := Pending, 0, 0, None;
    }

    method UpdateProgress(total: nat, done: nat, status: JobStatus, ok: bool)
      modifies this
      ensures summary == old(summary)
      ensures if ok then totalItems == total && doneItems == done && this.status == status
              else totalItems == old(totalItems) && doneItems == old(doneItems) && this.status == old(this.status)
    {
      if ok {
        totalItems, doneItems, this.status := total, done, status;
      }
    }

    method UpdateError(ok: bool)
      modifies this
      ensures summary == old(summary) && totalItems == old(totalItems) && doneItems == old(doneItems)
      ensures status == if ok then Error else old(status)
    {
      if ok {
        status := Error;
      }
    }

    method UpdateSummary(s: Summary, ok: bool)
      modifies this
      ensures status == old(status) && totalItems == old(totalItems) && doneItems == old(doneItems)
      ensures summary == if ok then Some(s) else old(summary)
    {
      if ok {
        summary := Some(s);
      }
    }
  }

  class ImportService {
    const cfg: Settings
    const providerId: string
    const repo: MediaRepository

    constructor (cfg: Settings, providerId: string, repo: MediaRepository)
      ensures this.cfg == cfg && this.providerId == providerId && this.repo == repo
    {
      this.cfg, this.providerId, this.repo := cfg, providerId, repo;
    }

    /** Stage 2 with a fresh claims map. */
    method ClassifyRoot(root: FSNode) returns (r: Classifier.ClassificationResult)
      modifies repo.ids
      ensures fresh(r) && r.unknown == []
      ensures var o := Scanning(cfg, root, old(repo.ids.next));
              r.candidates == o.cands && r.rejected == o.rejected && r.scannedDirs == o.scanned &&
                  repo.ids.next == o.next
    {
      var claims := new Classifier.ClaimMap();
      var walkCtx := new Classifier.WalkContext(ROOT_CTX, claims);
      var classifier := new Classifier.Importer(cfg, repo.ids);
      r := classifier.ClassifyTree(root, walkCtx);
    }

    /** Stages 2 and 4 on a snapshot. */
    method ImportSnapshot(root: FSNode) returns (classified: Classifier.ClassificationResult, report: Report)
      modifies repo, repo.ids
      ensures fresh(classified)
      ensures (repo.State(), report) == ImportTree(cfg, providerId, repo.store, old(repo.State()), root)
      ensures classified.candidates == Scanning(cfg, root, old(repo.ids.next)).cands
      ensures classified.scannedDirs == Scanning(cfg, root, old(repo.ids.next)).scanned
    {
      classified := ClassifyRoot(root);
      var reconciler := new Reconciler(ImportingOf(cfg, providerId), repo);
      report := reconciler.ReconcileCandidates(classified.candidates);
    }

    /** ImportLibrary, once the library has been looked up: None is a source directory that cannot be read. */
    method ImportLibrary(sourcePath: Path, ghost depth: nat) returns (summary: Option<Summary>)
      requires Finite(cfg.fs, sourcePath, depth)
      modifies repo, repo.ids
      ensures summary.None? <==> Snap(cfg.fs, sourcePath, depth).None?
      ensures summary.None? ==> repo.State() == old(repo.State())
      ensures summary.Some? ==>
                var root := Snap(cfg.fs, sourcePath, depth).value;
                var (db, report) := ImportTree(cfg, providerId, repo.store, old(repo.State()), root);
                && repo.State() == db
                && summary.value.importedItems == Actions(report.accepted, CreateAction)
                && summary.value.updatedItems == Actions(report.accepted, UpdateAction)
                && summary.value.importedItems + summary.value.updatedItems + summary.value.skippedFiles
                   == |Scanning(cfg, root, old(repo.ids.next)).cands|
                && summary.value.parseWarnings == Warnings(report.rejected)
                && summary.value.scannedFiles == Scanning(cfg, root, old(repo.ids.next)).scanned
    {
      var root := BuildSnapshotRecursive(cfg.fs, sourcePath, depth);
      if root.None? {
        return None;
      }
      ghost var start := repo.State();
      var classified, report := ImportSnapshot(root.value);
      var s := BuildImportSummary(classified.scannedDirs, report);
      ImportCounts(cfg, providerId, repo.store, start, root.value);
      summary := Some(s);
    }

    /** runImport: the job row follows the stages; writeOk says which of its writes succeed. */
    method RunImport(job: ImportJob, sourcePath: Path, writeOk: seq<bool>, ghost depth: nat)
      requires Finite(cfg.fs, sourcePath, depth) && |writeOk| == 5
      requires job.status == Pending
      modifies job, repo, repo.ids
      ensures job.status == Done ==> job.totalItems == job.doneItems
      ensures job.status == Done ==>
                Snap(cfg.fs, sourcePath, depth).Some? &&
                job.totalItems == |Scanning(cfg, Snap(cfg.fs, sourcePath, depth).value, old(repo.ids.next)).cands|
      ensures Snap(cfg.fs, sourcePath, depth).None? ==>
                && repo.State() == old(repo.State())
                && job.status == if writeOk[1] then Error else if writeOk[0] then Running else Pending
      ensures Snap(cfg.fs, sourcePath, depth).Some? ==> (job.status == Done <==> writeOk[3])
      ensures Snap(cfg.fs, sourcePath, depth).Some? && writeOk[4] ==>
                && job.summary.Some?
                && var report := ImportTree(cfg, providerId, repo.store, old(repo.State()),
                    Snap(cfg.fs, sourcePath, depth).value).1;
                && job.summary.value.importedItems == Actions(report.accepted, CreateAction)
                && job.summary.value.updatedItems == Actions(report.accepted, UpdateAction)
                && job.summary.value.skippedFiles == |report.rejected|
                && job.summary.value.scannedFiles == Scanning(cfg, Snap(cfg.fs, sourcePath, depth).value,
                    old(repo.ids.next)).scanned
                && job.summary.value.parseWarnings == Warnings(report.rejected)
      ensures Snap(cfg.fs, sourcePath, depth).Some? ==>
                repo.State() == ImportTree(cfg, providerId, repo.store, old(repo.State()),
                    Snap(cfg.fs, sourcePath, depth).value).0
    {
      job.UpdateProgress(0, 0, Running, writeOk[0]);
      var root := BuildSnapshotRecursive(cfg.fs, sourcePath, depth);
      if root.None? {
        job.UpdateError(writeOk[1]);
        return;
      }
      ghost var start := repo.State();
      var classified := ClassifyRoot(root.value);
      var total := |classified.candidates|;
      job.UpdateProgress(total, 0, Running, writeOk[2]);
      var reconciler := new Reconciler(ImportingOf(cfg, providerId), repo);
      var report := reconciler.ReconcileCandidates(classified.candidates);
      job.UpdateProgress(total, report.done, Done, writeOk[3]);
      var s := BuildImportSummary(classified.scannedDirs, report);
      job.UpdateSummary(s, writeOk[4]);
    }
  }
}
