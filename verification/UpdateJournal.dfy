/**
 The durable state of the supervised self-updater: the files a crash leaves behind,
 and the write-ahead rule that makes every one of those states recoverable.
 */
module UpdateJournal {
  import opened Basics

  type Image = Bytes

  /** SHA-256 with collisions assumed away: a digest determines the image it was taken of. */
  datatype Digest = Sha256(of: Image)

  datatype Action = Check | Apply | Rollback

  datatype State = Running | Restarting | Succeeded | Completed | RolledBack | Failed

  datatype Phase =
    | Queued | CheckingRelease | Staging | BackingUp | Replacing | RestoringBackup
    | PhaseRestarting | HealthCheck | RollingBack | PhaseComplete | PhaseRolledBack | PhaseFailed

  datatype Job = Job(
    id: string, action: Action, version: string, currentVersion: string,
    state: State, phase: Phase, deadline: Option<int>, restartRequired: bool)

  datatype Binary = Binary(name: string, path: string, version: string)

  /** Where a copy of one binary is kept: an update's backup directory or a rollback's scratch directory. */
  datatype CopyPath = BackupCopy(id: string, index: nat) | UndoCopy(dir: nat, index: nat)

  datatype Entry = Entry(binary: Binary, backup: CopyPath, before: Digest, after: Digest)

  datatype Manifest = Manifest(id: string, version: string, entries: seq<Entry>)

  /** status.json. */
  datatype Status = Status(currentVersion: string, job: Option<Job>)

  /** Everything that outlives the process. */
  datatype Disk = Disk(
    status: Option<Status>,       // status.json
    records: map<string, Job>,    // jobs/<id>.json
    backup: Option<Manifest>,     // backup.json
    undo: Option<Manifest>,       // rollback-undo.json
    copies: map<CopyPath, Image>, // backup-<id>/<i> and rollback-<n>/<i>
    files: map<string, Image>)    // the installed binaries

  function DurableJob(d: Disk): Option<Job> {
    if d.status.Some? then d.status.value.job else None
  }

  /** A job a restarted guardian still has to settle. */
  predicate Pending(j: Job) {
    j.state.Running? || j.state.Restarting?
  }

  /** The phases after which a binary may have been replaced. */
  predicate RecoveryPhase(p: Phase) {
    p.Replacing? || p.PhaseRestarting? || p.HealthCheck? || p.RollingBack? || p.RestoringBackup?
  }

  predicate Distinct(bs: seq<Binary>) {
    forall i, j :: 0 <= i < j < |bs| ==> bs[i].path != bs[j].path
  }

  /** The two lists describe the same installed files, in the same order. */
  predicate SameTargets(as_: seq<Binary>, bs: seq<Binary>) {
    && |as_| == |bs|
    && forall i :: 0 <= i < |bs| ==> as_[i].path == bs[i].path && as_[i].name == bs[i].name
  }

  function Binaries(es: seq<Entry>): (bs: seq<Binary>)
    ensures |bs| == |es|
    ensures forall i :: 0 <= i < |es| ==> bs[i] == es[i].binary
  {
    seq(|es|, i requires 0 <= i < |es| => es[i].binary)
  }

  /** What an installation holds, as one image per supervised binary. */
  predicate Covers(files: map<string, Image>, bs: seq<Binary>) {
    forall i :: 0 <= i < |bs| ==> bs[i].path in files
  }

  predicate Agree(f: map<string, Image>, g: map<string, Image>, bs: seq<Binary>) {
    forall i :: 0 <= i < |bs| ==> bs[i].path in f && bs[i].path in g && f[bs[i].path] == g[bs[i].path]
  }

  /** The property the journal exists for. */
  predicate AllOrNothing(files: map<string, Image>, bs: seq<Binary>, pre: map<string, Image>, target: map<string, Image>) {
    Agree(files, pre, bs) || Agree(files, target, bs)
  }

  /** Every binary, taken alone, holds its old image or its new one. */
  predicate EachOldOrNew(files: map<string, Image>, bs: seq<Binary>, pre: map<string, Image>, target: map<string, Image>) {
    forall i :: 0 <= i < |bs| ==>
      && bs[i].path in files && bs[i].path in pre && bs[i].path in target
      && (files[bs[i].path] == pre[bs[i].path] || files[bs[i].path] == target[bs[i].path])
  }

  /** The hashes of manifest `m` are those of `pre` and of `target`. */
  predicate Hashed(m: Manifest, bs: seq<Binary>, pre: map<string, Image>, target: map<string, Image>) {
    && SameTargets(Binaries(m.entries), bs)
    && Covers(pre, bs) && Covers(target, bs)
    && forall i :: 0 <= i < |bs| ==>
      && m.entries[i].before == Sha256(pre[bs[i].path])
      && m.entries[i].after == Sha256(target[bs[i].path])
  }

  /** Restoring manifest `m` brings back `pre` from any mix of `pre` and `target`. */
  predicate Restores(m: Manifest, copies: map<CopyPath, Image>, bs: seq<Binary>, pre: map<string, Image>, target: map<string, Image>) {
    && Hashed(m, bs, pre, target)
    && forall i :: 0 <= i < |bs| ==> m.entries[i].backup in copies && copies[m.entries[i].backup] == pre[bs[i].path]
  }

  /** `m`'s backups are the images a rollback installs. */
  predicate RollsBackTo(m: Manifest, bs: seq<Binary>, target: map<string, Image>) {
    && SameTargets(Binaries(m.entries), bs)
    && Covers(target, bs)
    && forall i :: 0 <= i < |bs| ==> m.entries[i].before == Sha256(target[bs[i].path])
  }

  /** The manifest recovery will read for job `j`. */
  function RecoveryManifest(d: Disk, j: Job): Option<Manifest> {
    if j.action.Rollback? then d.undo else d.backup
  }

  /** Everything recovery of `j` relies on is already durable. */
  predicate Armed(j: Job, d: Disk, bs: seq<Binary>, pre: map<string, Image>, target: map<string, Image>) {
    var m := RecoveryManifest(d, j);
    && m.Some? && m.value.id == j.id
    && Restores(m.value, d.copies, bs, pre, target)
    && (j.action.Rollback? ==> d.backup.Some? && RollsBackTo(d.backup.value, bs, target))
  }

  /**
   The write-ahead rule. Once the durable status names a phase in which binaries may be replaced,
   its recovery data is durable too; before that no binary has changed; and a settled job left
   the binaries all old or all new.
   */
  predicate Journal(d: Disk, bs: seq<Binary>, pre: map<string, Image>, target: map<string, Image>) {
    && Distinct(bs) && |bs| > 0
    && (d.backup.Some? ==> SameTargets(Binaries(d.backup.value.entries), bs))
    && EachOldOrNew(d.files, bs, pre, target)
    && match DurableJob(d)
       case None => AllOrNothing(d.files, bs, pre, target)
       case Some(j) =>
         && (!Pending(j) ==> AllOrNothing(d.files, bs, pre, target))
         && (Pending(j) && !RecoveryPhase(j.phase) ==> Agree(d.files, pre, bs))
         && (Pending(j) && RecoveryPhase(j.phase) ==> Armed(j, d, bs, pre, target))
  }

  /**
   How the durable job may change over time: a settled job never becomes pending again, and the
   health deadline of a pending one is never lost and never moves later.
   */
  predicate Advances(a: Option<Job>, b: Option<Job>) {
    a.Some? && b.Some? && a.value.id == b.value.id && Pending(b.value) ==>
      && Pending(a.value)
      && (a.value.deadline.Some? ==>
            b.value.deadline.Some? && b.value.deadline.value <= a.value.deadline.value)
  }

  /** A mix of old and new binaries can only be seen while the journal still asks for recovery,
      with the data recovery needs in place. */
  lemma MixedMeansArmed(d: Disk, bs: seq<Binary>, pre: map<string, Image>, target: map<string, Image>)
    requires Journal(d, bs, pre, target)
    requires !Agree(d.files, pre, bs)
    ensures DurableJob(d).Some? && Pending(DurableJob(d).value) ==>
      RecoveryPhase(DurableJob(d).value.phase) && Armed(DurableJob(d).value, d, bs, pre, target)
    ensures !AllOrNothing(d.files, bs, pre, target) ==>
      DurableJob(d).Some? && Pending(DurableJob(d).value)
  {
  }

  lemma JournalDistinct(d: Disk, bs: seq<Binary>, pre: map<string, Image>, target: map<string, Image>)
    requires Journal(d, bs, pre, target)
    ensures Distinct(bs) && |bs| > 0 && (d.backup.Some? ==> SameTargets(Binaries(d.backup.value.entries), bs))
  {
  }

  lemma JournalEach(d: Disk, bs: seq<Binary>, pre: map<string, Image>, target: map<string, Image>)
    requires Journal(d, bs, pre, target)
    ensures EachOldOrNew(d.files, bs, pre, target)
  {
  }

  /** One image per binary, as an installation. */
  ghost function Installation(bs: seq<Binary>, images: seq<Image>): (f: map<string, Image>)
    requires Distinct(bs) && |images| == |bs|
    ensures forall i :: 0 <= i < |bs| ==> bs[i].path in f && f[bs[i].path] == images[i]
  {
    map i | 0 <= i < |bs| :: bs[i].path := images[i]
  }

  /** Only the installed files changed, binary by binary, while the journal asks for recovery. */
  lemma ReplacingKeepsJournal(d: Disk, d': Disk, bs: seq<Binary>, pre: map<string, Image>, target: map<string, Image>)
    requires Journal(d, bs, pre, target)
    requires DurableJob(d).Some? && Pending(DurableJob(d).value) && RecoveryPhase(DurableJob(d).value.phase)
    requires d' == d.(files := d'.files) && EachOldOrNew(d'.files, bs, pre, target)
    ensures Journal(d', bs, pre, target)
  {
    var m := RecoveryManifest(d, DurableJob(d).value).value;
    assert Restores(m, d'.copies, bs, pre, target);
  }

  /** Writes that touch only the journal keep it when the new durable job is covered. */
  lemma SavingKeepsJournal(d: Disk, d': Disk, bs: seq<Binary>, pre: map<string, Image>, target: map<string, Image>)
    requires Journal(d, bs, pre, target)
    requires d' == d.(status := d'.status, records := d'.records)
    requires DurableJob(d').Some? && (Pending(DurableJob(d').value) ==>
      if RecoveryPhase(DurableJob(d').value.phase) then Armed(DurableJob(d').value, d, bs, pre, target)
      else Agree(d.files, pre, bs))
    requires !Pending(DurableJob(d').value) ==> AllOrNothing(d.files, bs, pre, target)
    ensures Journal(d', bs, pre, target)
  {
    var j := DurableJob(d').value;
    if Pending(j) && RecoveryPhase(j.phase) {
      assert Restores(RecoveryManifest(d, j).value, d'.copies, bs, pre, target);
    }
  }

  /** Recording new versions of the binaries does not touch the journal. */
  lemma VersionsDoNotMatter(d: Disk, bs: seq<Binary>, bs': seq<Binary>, pre: map<string, Image>, target: map<string, Image>)
    requires SameTargets(bs', bs) && Journal(d, bs, pre, target)
    ensures Journal(d, bs', pre, target)
    ensures AllOrNothing(d.files, bs, pre, target) ==> AllOrNothing(d.files, bs', pre, target)
  {
    if DurableJob(d).Some? && Pending(DurableJob(d).value) && RecoveryPhase(DurableJob(d).value.phase) {
      var j := DurableJob(d).value;
      assert Restores(RecoveryManifest(d, j).value, d.copies, bs', pre, target);
      if j.action.Rollback? { assert RollsBackTo(d.backup.value, bs', target); }
    }
  }

  /** Before the replacing phase is journaled, copies, manifests and the target are free to change. */
  lemma PreparingKeepsJournal(d: Disk, d': Disk, bs: seq<Binary>, pre: map<string, Image>, target: map<string, Image>, target': map<string, Image>)
    requires Journal(d, bs, pre, target)
    requires DurableJob(d).Some? && Pending(DurableJob(d).value) && !RecoveryPhase(DurableJob(d).value.phase)
    requires d' == d.(backup := d'.backup, undo := d'.undo, copies := d'.copies) && (target' == target || Covers(target', bs))
    requires d'.backup.Some? ==> SameTargets(Binaries(d'.backup.value.entries), bs)
    ensures Journal(d', bs, pre, target')
  {
  }

  /** A queued job starts a new span: what is installed is what it began with. */
  lemma FreshJobJournal(d: Disk, d': Disk, bs: seq<Binary>, pre: map<string, Image>, target: map<string, Image>)
    requires Journal(d, bs, pre, target)
    requires d' == d.(status := d'.status, records := d'.records)
    requires DurableJob(d').Some? && Pending(DurableJob(d').value) && !RecoveryPhase(DurableJob(d').value.phase)
    ensures Journal(d', bs, d'.files, d'.files) && Agree(d'.files, d'.files, bs) && AllOrNothing(d'.files, bs, d'.files, d'.files)
  {
  }

  /** A job's own record is not part of the journal while the status does not name it. */
  lemma RecordsDoNotMatter(d: Disk, d': Disk, bs: seq<Binary>, pre: map<string, Image>, target: map<string, Image>)
    requires Journal(d, bs, pre, target) && d' == d.(records := d'.records) && DurableJob(d') == DurableJob(d)
    ensures Journal(d', bs, pre, target)
  {
  }

  lemma EmptyJournal(bs: seq<Binary>, files: map<string, Image>)
    requires |bs| > 0 && Distinct(bs) && Covers(files, bs)
    ensures Journal(Disk(None, map[], None, None, map[], files), bs, files, files)
  {
  }

  // ----- where installations come from -----

  /** A job that became durable and what was installed then; the first entry is the first installation. */
  datatype Began = Began(id: Option<string>, files: map<string, Image>)

  function DurableId(d: Disk): Option<string> {
    if DurableJob(d).Some? then Some(DurableJob(d).value.id) else None
  }

  /** A release: its tag, and an image for every binary name it brings. */
  datatype Release = Release(tag: string, images: map<string, Image>)

  /** Every binary is the one a release brings under its name. */
  predicate FromRelease(files: map<string, Image>, bs: seq<Binary>, release: Release) {
    forall i :: 0 <= i < |bs| ==> bs[i].path in files && bs[i].name in release.images && files[bs[i].path] == release.images[bs[i].name]
  }

  /** All binaries are those of the first installation, or all are those of one and the same release. */
  predicate Coherent(files: map<string, Image>, bs: seq<Binary>, first: map<string, Image>, releases: set<Release>) {
    Agree(files, first, bs) || exists r :: r in releases && FromRelease(files, bs, r)
  }

  /** By the hashes of manifest `m`, all binaries are from before its job or all are from after it. */
  predicate Matches(m: Manifest, files: map<string, Image>, bs: seq<Binary>) {
    && SameTargets(Binaries(m.entries), bs) && Covers(files, bs)
    && ((forall i :: 0 <= i < |bs| ==> m.entries[i].before == Sha256(files[bs[i].path]))
        || (forall i :: 0 <= i < |bs| ==> m.entries[i].after == Sha256(files[bs[i].path])))
  }

  /** The binaries match every manifest the durable job has written. */
  predicate Whole(d: Disk, bs: seq<Binary>) {
    && (d.backup.Some? && Some(d.backup.value.id) == DurableId(d) ==> Matches(d.backup.value, d.files, bs))
    && (d.undo.Some? && Some(d.undo.value.id) == DurableId(d) ==> Matches(d.undo.value, d.files, bs))
  }

  predicate Begun(began: seq<Began>, id: string) {
    exists n :: 0 <= n < |began| && began[n].id == Some(id)
  }

  /** A manifest was written by a job that had begun; the newest job's own one has the hashes of its span. */
  predicate Kept(m: Option<Manifest>, id: Option<string>, bs: seq<Binary>, pre: map<string, Image>, target: map<string, Image>, began: seq<Began>) {
    m.Some? ==> Begun(began, m.value.id) && (Some(m.value.id) == id ==> Hashed(m.value, bs, pre, target))
  }

  /** A rollback to manifest `m` installs a coherent set of binaries. */
  ghost predicate LeadsBack(m: Manifest, bs: seq<Binary>, first: map<string, Image>, releases: set<Release>) {
    exists f :: RollsBackTo(m, bs, f) && Coherent(f, bs, first, releases)
  }

  /** What the manifests and the span of the newest job have to do with the installations there were. */
  ghost predicate Traced(backup: Option<Manifest>, undo: Option<Manifest>, id: Option<string>, bs: seq<Binary>, pre: map<string, Image>,
                         target: map<string, Image>, began: seq<Began>, first: map<string, Image>, releases: set<Release>) {
    && Coherent(pre, bs, first, releases) && Coherent(target, bs, first, releases)
    && |began| > 0 && began[|began| - 1] == Began(id, pre)
    && Kept(backup, id, bs, pre, target, began) && Kept(undo, id, bs, pre, target, began)
    && (backup.Some? ==> LeadsBack(backup.value, bs, first, releases))
  }

  /** Jobs that began have a record, and so their ids are never used again. */
  predicate Enrolled(began: seq<Began>, recorded: set<string>) {
    forall n :: 0 <= n < |began| && began[n].id.Some? ==> began[n].id.value in recorded
  }

  lemma AgreeingCoheres(f: map<string, Image>, g: map<string, Image>, bs: seq<Binary>, first: map<string, Image>, releases: set<Release>)
    requires Agree(f, g, bs) && Coherent(g, bs, first, releases)
    ensures Coherent(f, bs, first, releases)
  {
    if !Agree(g, first, bs) {
      var r :| r in releases && FromRelease(g, bs, r);
      assert FromRelease(f, bs, r);
    }
  }

  /** Binaries that are all old or all new are one coherent set, and match what the newest job wrote down. */
  lemma TracedWhole(d: Disk, bs: seq<Binary>, pre: map<string, Image>, target: map<string, Image>, began: seq<Began>,
                    first: map<string, Image>, releases: set<Release>)
    requires Traced(d.backup, d.undo, DurableId(d), bs, pre, target, began, first, releases)
    requires AllOrNothing(d.files, bs, pre, target)
    ensures Whole(d, bs) && Coherent(d.files, bs, first, releases)
  {
    if Agree(d.files, pre, bs) {
      AgreeingCoheres(d.files, pre, bs, first, releases);
    } else {
      AgreeingCoheres(d.files, target, bs, first, releases);
    }
  }

  /** A fresh job begins over a coherent installation; no manifest is its own yet. */
  lemma TracedFresh(backup: Option<Manifest>, undo: Option<Manifest>, id: Option<string>, bs: seq<Binary>, pre: map<string, Image>,
                    target: map<string, Image>, began: seq<Began>, first: map<string, Image>, releases: set<Release>,
                    files: map<string, Image>, recorded: set<string>, fresh_: string)
    requires Traced(backup, undo, id, bs, pre, target, began, first, releases) && Enrolled(began, recorded)
    requires AllOrNothing(files, bs, pre, target) && fresh_ !in recorded
    ensures Traced(backup, undo, Some(fresh_), bs, files, files, began + [Began(Some(fresh_), files)], first, releases)
    ensures backup.Some? ==> backup.value.id != fresh_
    ensures undo.Some? ==> undo.value.id != fresh_
  {
    if Agree(files, pre, bs) { AgreeingCoheres(files, pre, bs, first, releases); } else { AgreeingCoheres(files, target, bs, first, releases); }
    var began' := began + [Began(Some(fresh_), files)];
    if backup.Some? { BegunBefore(began, Began(Some(fresh_), files), backup.value.id); }
    if undo.Some? { BegunBefore(began, Began(Some(fresh_), files), undo.value.id); }
  }

  lemma BegunBefore(began: seq<Began>, next: Began, id: string)
    requires Begun(began, id)
    ensures Begun(began + [next], id)
  {
    var n :| 0 <= n < |began| && began[n].id == Some(id);
    assert (began + [next])[n] == began[n];
  }

  /** The backup manifest of a running update: the target becomes the release it was made for. */
  lemma TracedBackup(m: Manifest, backup: Option<Manifest>, undo: Option<Manifest>, bs: seq<Binary>, pre: map<string, Image>, target: map<string, Image>,
                     target': map<string, Image>, began: seq<Began>, first: map<string, Image>, releases: set<Release>, release: Release)
    requires Traced(backup, undo, Some(m.id), bs, pre, target, began, first, releases)
    requires undo.Some? ==> undo.value.id != m.id
    requires Hashed(m, bs, pre, target') && release in releases && FromRelease(target', bs, release)
    ensures Traced(Some(m), undo, Some(m.id), bs, pre, target', began, first, releases)
  {
    assert RollsBackTo(m, bs, pre);
    assert began[|began| - 1].id == Some(m.id);
  }

  /** The undo manifest of a running rollback: the target becomes what the backup holds. */
  lemma TracedUndo(m: Manifest, backup: Manifest, undo: Option<Manifest>, bs: seq<Binary>, pre: map<string, Image>, target: map<string, Image>,
                   target': map<string, Image>, began: seq<Began>, first: map<string, Image>, releases: set<Release>)
    requires Traced(Some(backup), undo, Some(m.id), bs, pre, target, began, first, releases) && backup.id != m.id
    requires Hashed(m, bs, pre, target') && RollsBackTo(backup, bs, target')
    ensures Traced(Some(backup), Some(m), Some(m.id), bs, pre, target', began, first, releases)
  {
    var f :| RollsBackTo(backup, bs, f) && Coherent(f, bs, first, releases);
    assert Agree(target', f, bs);
    AgreeingCoheres(target', f, bs, first, releases);
    assert began[|began| - 1].id == Some(m.id);
  }

  lemma CoherentVersions(f: map<string, Image>, bs: seq<Binary>, bs': seq<Binary>, first: map<string, Image>, releases: set<Release>)
    requires SameTargets(bs', bs) && Coherent(f, bs, first, releases)
    ensures Coherent(f, bs', first, releases)
  {
    if !Agree(f, first, bs) {
      var r :| r in releases && FromRelease(f, bs, r);
      assert FromRelease(f, bs', r);
    }
  }

  lemma TracedVersions(backup: Option<Manifest>, undo: Option<Manifest>, id: Option<string>, bs: seq<Binary>, bs': seq<Binary>, pre: map<string, Image>,
                       target: map<string, Image>, began: seq<Began>, first: map<string, Image>, releases: set<Release>)
    requires SameTargets(bs', bs) && Traced(backup, undo, id, bs, pre, target, began, first, releases)
    ensures Traced(backup, undo, id, bs', pre, target, began, first, releases)
  {
    CoherentVersions(pre, bs, bs', first, releases);
    CoherentVersions(target, bs, bs', first, releases);
    if backup.Some? {
      var f :| RollsBackTo(backup.value, bs, f) && Coherent(f, bs, first, releases);
      CoherentVersions(f, bs, bs', first, releases);
      assert RollsBackTo(backup.value, bs', f);
    }
  }

  lemma WholeVersions(d: Disk, bs: seq<Binary>, bs': seq<Binary>)
    requires SameTargets(bs', bs) && Whole(d, bs)
    ensures Whole(d, bs')
  {
  }

  lemma TracedFirst(bs: seq<Binary>, first: map<string, Image>, releases: set<Release>)
    requires Covers(first, bs)
    ensures Traced(None, None, None, bs, first, first, [Began(None, first)], first, releases) && Enrolled([Began(None, first)], {})
  {
  }

  // ----- giving up -----

  /** From `files` to `after`, the binaries numbered in `back` were put back and the others left alone. */
  ghost predicate PutBackAt(files: map<string, Image>, after: map<string, Image>, bs: seq<Binary>, pre: map<string, Image>, back: set<nat>) {
    && Covers(files, bs) && Covers(after, bs) && Covers(pre, bs)
    && forall i :: 0 <= i < |bs| ==> after[bs[i].path] == (if i in back then pre else files)[bs[i].path]
  }

  /** A binary the job changes. */
  predicate Differs(b: Binary, pre: map<string, Image>, target: map<string, Image>)
    requires b.path in pre && b.path in target
  {
    pre[b.path] != target[b.path]
  }

  /** No changed binary is left new, or all of them are. */
  ghost predicate Clean(files: map<string, Image>, bs: seq<Binary>, pre: map<string, Image>, target: map<string, Image>, back: set<nat>)
    requires Covers(files, bs) && Covers(pre, bs) && Covers(target, bs)
  {
    || (forall i :: 0 <= i < |bs| && Differs(bs[i], pre, target) ==> i in back || files[bs[i].path] == pre[bs[i].path])
    || (forall i :: 0 <= i < |bs| && Differs(bs[i], pre, target) ==> i !in back && files[bs[i].path] == target[bs[i].path])
  }

  /**
   Putting back some of the binaries and giving up leaves them all old or all new if and only if no changed binary
   is left new, or every changed binary still is.
   */
  lemma GivingUpExactly(files: map<string, Image>, after: map<string, Image>, bs: seq<Binary>, pre: map<string, Image>,
                        target: map<string, Image>, back: set<nat>)
    requires EachOldOrNew(files, bs, pre, target) && PutBackAt(files, after, bs, pre, back)
    ensures Covers(target, bs)
    ensures AllOrNothing(after, bs, pre, target) <==> Clean(files, bs, pre, target, back)
  {
    forall i | 0 <= i < |bs| ensures bs[i].path in target { }
    if Agree(after, pre, bs) {
      forall i | 0 <= i < |bs| && Differs(bs[i], pre, target) ensures i in back || files[bs[i].path] == pre[bs[i].path] { }
    }
    if Agree(after, target, bs) {
      forall i | 0 <= i < |bs| && Differs(bs[i], pre, target) ensures i !in back && files[bs[i].path] == target[bs[i].path] { }
    }
  }

  /**
   A restore that stops behind its first entry: whenever the first binary and a later one are changed and the later one
   is new, the mix stays, and the job that is then settled as failed is never recovered again.
   */
  lemma StoppedRestoreLeavesAMix(d: Disk, after: map<string, Image>, bs: seq<Binary>, pre: map<string, Image>, target: map<string, Image>, i: nat)
    requires Journal(d, bs, pre, target) && DurableJob(d).Some? && Pending(DurableJob(d).value) && RecoveryPhase(DurableJob(d).value.phase)
    requires PutBackAt(d.files, after, bs, pre, {0}) && Covers(target, bs)
    requires 0 < i < |bs| && Differs(bs[0], pre, target) && Differs(bs[i], pre, target) && d.files[bs[i].path] == target[bs[i].path]
    ensures !AllOrNothing(after, bs, pre, target)
    ensures !Journal(d.(files := after, status := Some(Status("", Some(DurableJob(d).value.(state := Failed, phase := PhaseFailed))))), bs, pre, target)
  {
    GivingUpExactly(d.files, after, bs, pre, target, {0});
  }

  /** Such a disk: two binaries, both new, with recovery armed. */
  lemma MixExample() returns (d: Disk, after: map<string, Image>, bs: seq<Binary>, pre: map<string, Image>, target: map<string, Image>)
    ensures Journal(d, bs, pre, target) && DurableJob(d).Some? && DurableJob(d).value.phase.RollingBack?
    ensures PutBackAt(d.files, after, bs, pre, {0}) && !AllOrNothing(after, bs, pre, target)
  {
    var was: Image, now: Image := [0], [1];
    var a, b := Binary("", "a", ""), Binary("", "bb", "");
    assert |a.path| != |b.path| && was[0] != now[0];
    bs := [a, b];
    pre, target := map[a.path := was, b.path := was], map[a.path := now, b.path := now];
    var ca, cb := BackupCopy("", 0), BackupCopy("", 1);
    var es := [Entry(a, ca, Sha256(was), Sha256(now)), Entry(b, cb, Sha256(was), Sha256(now))];
    var j := Job("", Apply, "", "", Restarting, RollingBack, Some(0), true);
    d := Disk(Some(Status("", Some(j))), map[], Some(Manifest("", "", es)), None, map[ca := was, cb := was], target);
    after := d.files[a.path := was];
    assert bs[0] == a && bs[1] == b;
    StoppedRestoreLeavesAMix(d, after, bs, pre, target, 1);
  }
}
