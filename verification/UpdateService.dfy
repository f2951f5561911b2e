/**
 The update service: it journals a job's phase, backs the binaries up, replaces them one by one and
 undoes or restores them. Every durable write is one call below; the process may die before or after
 each of them, and each may also fail with its effect either in place or not.
 */
module UpdateService {
  import opened Basics
  import opened UpdateJournal

  /** The durable jobs in the order they were written, newest last. */
  predicate Timeline(hist: seq<Option<Job>>, newest: Option<Job>, recorded: set<string>) {
    && |hist| > 0 && hist[|hist| - 1] == newest
    && (forall i :: 0 <= i < |hist| && hist[i].Some? ==> hist[i].value.id in recorded)
    && (forall i, j :: 0 <= i < j < |hist| ==> Advances(hist[i], hist[j]))
  }

  /** `j` is a later version of the newest durable job, or a job never seen before. */
  predicate Follows(hist: seq<Option<Job>>, j: Job) {
    && |hist| > 0
    && Advances(hist[|hist| - 1], Some(j))
    && ((hist[|hist| - 1].Some? && hist[|hist| - 1].value.id == j.id)
        || forall i :: 0 <= i < |hist| && hist[i].Some? ==> hist[i].value.id != j.id)
  }

  lemma TimelineExtends(hist: seq<Option<Job>>, newest: Option<Job>, recorded: set<string>, j: Job, recorded': set<string>)
    requires Timeline(hist, newest, recorded) && Follows(hist, j)
    requires recorded <= recorded' && j.id in recorded'
    ensures Timeline(hist + [Some(j)], Some(j), recorded')
  {
  }

  lemma TimelineGrows(hist: seq<Option<Job>>, newest: Option<Job>, recorded: set<string>, recorded': set<string>, began: seq<Began>)
    requires Timeline(hist, newest, recorded) && recorded <= recorded' && Enrolled(began, recorded)
    ensures Timeline(hist, newest, recorded') && Enrolled(began, recorded')
  {
  }

  /** The entry's backup is what is installed. */
  predicate PutBack(e: Entry, d: Disk) {
    && e.backup in d.copies && e.binary.path in d.files
    && d.files[e.binary.path] == d.copies[e.backup]
  }

  /** From `d` to `d'`, one entry's binary was put back, or left alone. */
  predicate EntryBack(d: Disk, d': Disk, e: Entry, back: bool) {
    && (back ==> PutBack(e, d'))
    && (!back ==> (e.binary.path in d.files <==> e.binary.path in d'.files))
    && (!back && e.binary.path in d.files ==> d'.files[e.binary.path] == d.files[e.binary.path])
  }

  predicate CanPutBack(es: seq<Entry>, d: Disk) {
    forall k :: 0 <= k < |es| ==> es[k].backup in d.copies && es[k].binary.path in d.files
  }

  /** From `d` to `d'`, binaries changed only to an entry's backup. */
  predicate OnlyPutBack(d: Disk, d': Disk, es: seq<Entry>) {
    && d'.files.Keys == d.files.Keys
    && forall p :: p in d.files && d'.files[p] != d.files[p] ==>
      exists k :: 0 <= k < |es| && es[k].binary.path == p && PutBack(es[k], d')
  }

  /** A mix of binaries that nothing will recover any more, and the durable jobs up to then. */
  datatype Loss = Loss(binaries: seq<Binary>, files: map<string, Image>, pre: map<string, Image>, target: map<string, Image>, hist: seq<Option<Job>>)

  predicate Orderly(hist: seq<Option<Job>>) {
    forall i, j :: 0 <= i < j < |hist| ==> Advances(hist[i], hist[j])
  }

  predicate Real(l: Loss) {
    !AllOrNothing(l.files, l.binaries, l.pre, l.target) && Orderly(l.hist)
  }

  /** What `readJSON` reads: files of at most 1 MiB. Values that never occur count as fitting. */
  datatype Codec = Codec(status: Status -> bool, manifest: Manifest -> bool)

  /** Semantic versions: which strings are versions, and which of two is older. */
  datatype Order = Order(valid: string -> bool, older: (string, string) -> bool)

  /** Every status, and every manifest of so many binaries, can be read back. */
  ghost predicate Small(fits: Codec, count: nat) {
    (forall st :: fits.status(st)) && (forall m: Manifest :: |m.entries| == count ==> fits.manifest(m))
  }

  lemma OneMoreBack(f0: map<string, Image>, f: map<string, Image>, bs: seq<Binary>, pre: map<string, Image>, target: map<string, Image>, n: nat, back: set<nat>)
    requires Distinct(bs) && n < |bs| && EachOldOrNew(f, bs, pre, target) && PutBackAt(f0, f, bs, pre, back)
    ensures EachOldOrNew(f[bs[n].path := pre[bs[n].path]], bs, pre, target)
    ensures PutBackAt(f0, f[bs[n].path := pre[bs[n].path]], bs, pre, back + {n})
  {
    var f' := f[bs[n].path := pre[bs[n].path]];
    forall i | 0 <= i < |bs| ensures f'[bs[i].path] == (if i in back + {n} then pre else f0)[bs[i].path] { }
  }

  /** A job is what it was, this one, or its failure. */
  predicate NewJob(now: Option<Job>, was: Option<Job>, j: Job) {
    now == was || now == Some(j) || now == Some(j.(state := Failed))
  }

  /** How a supervised job ends: rolled back, failed for some cause, or complete. */
  function Concluded(j: Job, rolledBack: bool, cause: bool): (r: Job)
    ensures !Pending(r) && r.id == j.id && r.action == j.action && r.version == j.version
  {
    var done := j.(deadline := None);
    if rolledBack then done.(state := RolledBack, phase := PhaseRolledBack)
    else if cause then done.(state := Failed, phase := PhaseFailed)
    else done.(state := Completed, phase := PhaseComplete)
  }

  /** Every backup is intact, and every binary is what its job left or found. */
  predicate Reversible(files: map<string, Image>, copies: map<CopyPath, Image>, entries: seq<Entry>) {
    forall i :: 0 <= i < |entries| ==>
      && entries[i].backup in copies && entries[i].before == Sha256(copies[entries[i].backup])
      && entries[i].binary.path in files
      && (entries[i].after == Sha256(files[entries[i].binary.path]) || entries[i].before == Sha256(files[entries[i].binary.path]))
  }

  /** A job whose child is being checked until the deadline. */
  function Checked(j: Job, deadline: int): Job {
    j.(state := Restarting, phase := HealthCheck, deadline := Some(deadline))
  }

  predicate Brings(release: Release, tag: string, bs: seq<Binary>) {
    release.tag == tag && forall i :: 0 <= i < |bs| ==> bs[i].name in release.images
  }

  /** No backup has been made under this id. */
  predicate NoCopies(copies: map<CopyPath, Image>, id: string) {
    forall k :: k in copies && k.BackupCopy? ==> k.id != id
  }

  /** The manifest, if any, is another job's. */
  predicate Unowned(m: Option<Manifest>, id: string) {
    m.Some? ==> m.value.id != id
  }

  /** The first `n` binaries are backed up, with the hashes of what is installed and of what is staged. */
  predicate Backs(bs: seq<Binary>, files: map<string, Image>, copies: map<CopyPath, Image>, entries: seq<Entry>, staged: map<string, Image>, n: nat) {
    && n <= |bs| && |entries| == n
    && forall i :: 0 <= i < n ==>
      && entries[i].binary == bs[i] && bs[i].path in files && bs[i].name in staged
      && entries[i].backup in copies && copies[entries[i].backup] == files[bs[i].path]
      && entries[i].before == Sha256(files[bs[i].path])
      && entries[i].after == Sha256(staged[bs[i].name])
  }

  class Service {
    var binaries: seq<Binary>
    var disk: Disk
    var status: Status
    var active: bool
    /** Whether reads and writes may fail; a process may die in either case. */
    const faulty: bool
    const fits: Codec
    const order: Order
    /** Nothing outside refuses: authority is given, releases can be had, and children start, are healthy and stop. */
    const smooth: bool
    /** The first installation, and the releases there are. */
    const first: map<string, Image>
    const releases: set<Release>

    /** The installation when the newest job began, and the one that job installs. */
    ghost var pre: map<string, Image>
    ghost var target: map<string, Image>
    ghost var hist: seq<Option<Job>>
    /** The jobs that became durable, each with what was installed then. */
    ghost var began: seq<Began>
    /** The first mix that a restore gave up over or a start overlooked. */
    ghost var loss: Option<Loss>

    ghost predicate Journaled()
      reads this
    {
      Journal(disk, binaries, pre, target) && Timeline(hist, DurableJob(disk), disk.records.Keys) && Linked()
    }

    /** The span of the newest job and the manifests go back to the first installation and the releases. */
    ghost predicate Linked()
      reads this
    {
      && Traced(disk.backup, disk.undo, DurableId(disk), binaries, pre, target, began, first, releases)
      && Enrolled(began, disk.records.Keys)
    }

    /** The span of the newest job and what was written down for its recovery are as they were. */
    twostate predicate SameSpan()
      reads this`pre, this`target, this`began, this`disk
    {
      && pre == old(pre) && target == old(target) && began == old(began)
      && disk.backup == old(disk).backup && disk.undo == old(disk).undo && disk.copies == old(disk).copies
    }

    /** What every durable step keeps. */
    ghost predicate Good()
      reads this
    {
      && (loss.Some? ==> (faulty || !Small(fits, |binaries|)) && Real(loss.value) && loss.value.hist <= hist)
      && (loss.Some? || Journaled())
    }

    /** Losses are for good, and the history only grows. */
    twostate predicate Onward()
      reads this`loss, this`hist, this`binaries, this`began
    {
      old(hist) <= hist && old(began) <= began && |binaries| == |old(binaries)| && (old(loss).Some? ==> loss == old(loss))
    }

    /** A loss that is new is over the binaries as they are now, in the present span. */
    twostate predicate LostHere()
      reads this`loss, this`disk, this`pre, this`target
    {
      loss == old(loss) || (loss.Some? && loss.value.files == disk.files && loss.value.pre == pre && loss.value.target == target)
    }

    /** The process knows the durable job, or has overlooked it over binaries that are all old or all new. */
    ghost predicate Opened()
      reads this
    {
      || loss.Some? || status.job == DurableJob(disk)
      || (status.job.None? && AllOrNothing(disk.files, binaries, pre, target))
    }

    /** A process that knows of no replacing phase finds all binaries old or all binaries new. */
    lemma OpenedIdle()
      requires Journaled() && Opened() && loss.None?
      requires !(status.job.Some? && Pending(status.job.value) && RecoveryPhase(status.job.value.phase))
      ensures Idle()
    {
      hide Timeline, Traced, Enrolled, Armed, EachOldOrNew, Agree;
    }

    lemma JournaledOrderly()
      requires Journaled()
      ensures Orderly(hist)
    {
      hide Journal;
    }

    /** The jobs known and durable are as they were, or in this state. */
    twostate predicate Marks(state: State)
      reads this`status, this`disk
    {
      && (status.job == old(status).job || (status.job.Some? && status.job.value.state == state))
      && (DurableJob(disk) == old(DurableJob(disk)) || (DurableJob(disk).Some? && DurableJob(disk).value.state == state))
    }

    /** Nothing will look at these binaries again: a mix among them is lost. */
    ghost method GiveUp()
      modifies this`loss
      ensures loss == if old(loss).Some? || AllOrNothing(disk.files, binaries, pre, target) then old(loss)
                      else Some(Loss(binaries, disk.files, pre, target, hist))
    {
      if loss.None? && !AllOrNothing(disk.files, binaries, pre, target) { loss := Some(Loss(binaries, disk.files, pre, target, hist)); }
    }

    /** The process and the disk agree on the job being run. */
    ghost predicate Synced(j: Job)
      reads this
    {
      DurableJob(disk) == Some(j) && status.job == Some(j)
    }

    /** Start-up (`New`): the journal is read back, nothing else survives. A journal that cannot be read is ignored. */
    constructor (binaries: seq<Binary>, version: string, disk: Disk, faulty: bool, fits: Codec, order: Order, smooth: bool, unreadable: bool,
                 first: map<string, Image>, releases: set<Release>,
                 ghost pre: map<string, Image>, ghost target: map<string, Image>,
                 ghost hist: seq<Option<Job>>, ghost began: seq<Began>, ghost loss: Option<Loss>)
      requires unreadable ==> faulty
      ensures this.binaries == binaries && this.disk == disk && this.faulty == faulty && this.fits == fits
      ensures this.order == order && this.smooth == smooth && this.first == first && this.releases == releases
      ensures status.currentVersion == version && !active
      ensures status.job == if unreadable || (disk.status.Some? && !fits.status(disk.status.value)) then None else DurableJob(disk)
      ensures this.pre == pre && this.target == target && this.hist == hist && this.began == began
      ensures this.loss == if loss.None? && status.job != DurableJob(disk) && !AllOrNothing(disk.files, binaries, pre, target)
                           then Some(Loss(binaries, disk.files, pre, target, hist)) else loss
    {
      this.binaries, this.disk, this.faulty, this.fits := binaries, disk, faulty, fits;
      var job := if unreadable || (disk.status.Some? && !fits.status(disk.status.value)) then None else DurableJob(disk);
      this.status, this.active := Status(version, job), false;
      this.order, this.smooth, this.first, this.releases := order, smooth, first, releases;
      this.pre, this.target, this.hist, this.began := pre, target, hist, began;
      this.loss := if loss.None? && job != DurableJob(disk) && !AllOrNothing(disk.files, binaries, pre, target)
                   then Some(Loss(binaries, disk.files, pre, target, hist)) else loss;
    }

    // ----- durable writes -----

    method Fails() returns (b: bool)
      ensures b ==> faulty
    {
      b := *;
      b := b && faulty;
    }

    /** jobs/<id>.json. */
    method WriteRecord(j: Job) returns (r: Step<bool>)
      modifies this`disk
      ensures disk == old(disk) || disk == old(disk).(records := old(disk).records[j.id := j])
      ensures r == Done(true) ==> j.id in disk.records
      ensures r == Done(false) ==> faulty
    {
      var written := *;
      if written { disk := disk.(records := disk.records[j.id := j]); }
      var crash: bool := *;
      if crash { return Crashed; }
      var failed := Fails();
      if !failed && !written { disk := disk.(records := disk.records[j.id := j]); }
      r := Done(!failed);
    }

    /** status.json. */
    method WriteStatus(st: Status) returns (r: Step<bool>)
      modifies this`disk, this`hist
      ensures old(hist) <= hist
      ensures (disk == old(disk) && hist == old(hist))
              || (disk == old(disk).(status := Some(st)) && hist == old(hist) + [st.job])
      ensures r == Done(true) ==> disk.status == Some(st) && hist == old(hist) + [st.job]
      ensures r == Done(false) ==> faulty
    {
      var written := *;
      if written { disk, hist := disk.(status := Some(st)), hist + [st.job]; }
      var crash: bool := *;
      if crash { return Crashed; }
      var failed := Fails();
      if !failed && !written { disk, hist := disk.(status := Some(st)), hist + [st.job]; }
      r := Done(!failed);
    }

    /** backup.json or rollback-undo.json. */
    method WriteManifest(m: Manifest, rollback: bool) returns (r: Step<bool>)
      modifies this`disk
      ensures var d := if rollback then old(disk).(undo := Some(m)) else old(disk).(backup := Some(m));
        && (disk == old(disk) || disk == d)
        && (r == Done(true) ==> disk == d)
      ensures r == Done(false) ==> faulty
    {
      var d := if rollback then disk.(undo := Some(m)) else disk.(backup := Some(m));
      var written := *;
      if written { disk := d; }
      var crash: bool := *;
      if crash { return Crashed; }
      var failed := Fails();
      if !failed { disk := d; }
      r := Done(!failed);
    }

    /** Copies one installed binary aside. A copy cut short leaves anything under its own name. */
    method CopyAside(path: string, to: CopyPath) returns (r: Step<bool>)
      modifies this`disk
      ensures disk == old(disk).(copies := disk.copies) && disk.copies.Keys <= old(disk).copies.Keys + {to}
      ensures forall k :: k in old(disk).copies && k != to ==> k in disk.copies && disk.copies[k] == old(disk).copies[k]
      ensures r == Done(true) ==> path in disk.files && to in disk.copies && disk.copies[to] == disk.files[path]
      ensures r == Done(false) ==> faulty || path !in disk.files
    {
      var junk: Option<Image> := *;
      if junk.Some? { disk := disk.(copies := disk.copies[to := junk.value]); }
      var crash: bool := *;
      if crash { return Crashed; }
      var failed := Fails();
      if failed || path !in disk.files { return Done(false); }
      disk := disk.(copies := disk.copies[to := disk.files[path]]);
      r := Done(true);
    }

    /** Renames a finished copy of `image` over an existing binary (`replaceFile`). */
    method ReplaceFile(image: Option<Image>, path: string) returns (r: Step<bool>)
      modifies this`disk
      ensures disk == old(disk)
              || (image.Some? && path in old(disk).files && disk == old(disk).(files := old(disk).files[path := image.value]))
      ensures r == Done(true) ==> image.Some? && path in old(disk).files && disk == old(disk).(files := old(disk).files[path := image.value])
      ensures r == Done(false) ==> faulty || image.None? || path !in old(disk).files
    {
      var possible := image.Some? && path in disk.files;
      var written := *;
      if written && possible { disk := disk.(files := disk.files[path := image.value]); }
      var crash: bool := *;
      if crash { return Crashed; }
      var failed := Fails();
      if !failed && possible { disk := disk.(files := disk.files[path := image.value]); }
      r := Done(!failed && possible);
    }

    // ----- reads and decisions of the environment -----

    method FileHash(image: Option<Image>) returns (h: Option<Digest>)
      ensures h.Some? ==> image.Some? && h.value == Sha256(image.value)
      ensures h.None? ==> faulty || image.None?
    {
      var failed := Fails();
      if failed || image.None? { return None; }
      h := Some(Sha256(image.value));
    }

    function Installed(path: string): Option<Image>
      reads this
    {
      if path in disk.files then Some(disk.files[path]) else None
    }

    function Copy(at: CopyPath): Option<Image>
      reads this
    {
      if at in disk.copies then Some(disk.copies[at]) else None
    }

    method Authorize() returns (b: bool)
      ensures smooth ==> b
    {
      b := *;
      b := b || smooth;
    }

    /** A release with this tag brings every binary. */
    predicate Available(tag: string)
      reads this`binaries
    {
      exists release :: release in releases && Brings(release, tag, binaries)
    }

    /** A release with this tag that brings every binary, or an error: the download is not modelled. */
    method Stage(tag: string) returns (staged: Option<Release>)
      ensures staged.Some? ==> staged.value in releases && Brings(staged.value, tag, binaries)
      ensures staged.None? ==> !smooth || !Available(tag)
    {
      var failed: bool := *;
      if (failed && !smooth) || !Available(tag) { return None; }
      var release :| release in releases && Brings(release, tag, binaries);
      staged := Some(release);
    }

    // ----- the journal -----

    /** Making `j` the durable job keeps the journal. */
    ghost predicate MayJournal(j: Job)
      reads this
    {
      && Journaled() && Follows(hist, j) && DurableId(disk) == Some(j.id)
      && (if !Pending(j) then AllOrNothing(disk.files, binaries, pre, target)
          else if RecoveryPhase(j.phase) then Armed(j, disk, binaries, pre, target)
          else Agree(disk.files, pre, binaries))
    }

    lemma OwnedFollows(j: Job)
      requires Journaled() && Owns(j)
      ensures Follows(hist, j)
    {
    }

    lemma SettledFollows(j: Job)
      requires Journaled() && DurableJob(disk).Some? && DurableJob(disk).value.id == j.id && !Pending(j)
      ensures Follows(hist, j)
    {
    }

    ghost predicate MayFail(j: Job)
      reads this
    {
      Journaled() && DurableId(disk) == Some(j.id) && (Follows(hist, j) || (|hist| > 0 && hist[|hist| - 1] == Some(j)))
    }

    /** A job may always be followed by its own failure. */
    lemma FailureFollows(j: Job)
      requires MayFail(j)
      ensures Follows(hist, j.(state := Failed))
    {
    }

    /** `saveJob`: the job's own record, then status.json. */
    method SaveJob(j: Job) returns (r: Step<bool>)
      modifies this`disk, this`status, this`hist
      ensures old(hist) <= hist
      ensures disk == old(disk).(records := disk.records, status := disk.status)
      ensures old(disk).records.Keys <= disk.records.Keys
      ensures status == old(status) || status == old(status).(job := Some(j))
      ensures (disk.status == old(disk).status && hist == old(hist))
              || (disk.status == Some(old(status).(job := Some(j))) && status == disk.status.value
                  && hist == old(hist) + [Some(j)] && j.id in disk.records)
      ensures r == Done(true) ==> disk.status == Some(old(status).(job := Some(j))) && status == disk.status.value
      ensures r == Done(true) ==> hist == old(hist) + [Some(j)]
      ensures r == Done(false) ==> faulty
      ensures old(Journaled()) && Follows(old(hist), j) ==> Timeline(hist, DurableJob(disk), disk.records.Keys)
      ensures old(MayJournal(j)) ==> Journaled()
    {
      hide Journal, Timeline, Follows, Advances, AllOrNothing, Armed, Agree, Traced, Enrolled;
      ghost var d0, h0 := disk, hist;
      ghost var good := MayJournal(j);
      ghost var timely := Journaled() && Follows(hist, j);
      var wrote := WriteRecord(j);
      if timely { TimelineGrows(hist, DurableJob(d0), d0.records.Keys, disk.records.Keys, began); }
      if good { RecordsDoNotMatter(d0, disk, binaries, pre, target); }
      if wrote.Crashed? { return Crashed; }
      if !wrote.value { return Done(false); }
      ghost var d1 := disk;
      status := status.(job := Some(j));
      r := WriteStatus(status);
      if timely && hist != h0 { TimelineExtends(h0, DurableJob(d1), d1.records.Keys, j, disk.records.Keys); }
      if good && hist != h0 { SavingKeepsJournal(d0, disk, binaries, pre, target); }
    }

    /** `phase`. */
    method EnterPhase(job0: Job, p: Phase) returns (r: Step<bool>, job: Job)
      modifies this`disk, this`status, this`hist
      ensures Marks(job0.state)
      ensures old(hist) <= hist
      ensures job == job0.(phase := p)
      ensures disk == old(disk).(records := disk.records, status := disk.status)
      ensures disk.status == old(disk).status || DurableJob(disk) == Some(job)
      ensures r == Done(true) ==> Synced(job)
      ensures r == Done(false) ==> faulty
      ensures status.currentVersion == old(status).currentVersion
      ensures old(Journaled() && Owns(job0)) && Pending(job0)
              && old(if RecoveryPhase(p) then Armed(job0, disk, binaries, pre, target) else Agree(disk.files, pre, binaries))
              ==> Journaled() && Owns(job)
    {
      job := job0.(phase := p);
      r := SaveJob(job);
    }

    /** `undo`: puts the entries' backups back, last first, going on past failures. `back` are the entries put back. */
    method Undo(entries: seq<Entry>) returns (r: Step<()>, ghost back: set<nat>)
      modifies this`disk
      ensures disk == old(disk).(files := disk.files) && OnlyPutBack(old(disk), disk, entries)
      ensures Distinct(Binaries(entries)) ==> forall k :: 0 <= k < |entries| ==> EntryBack(old(disk), disk, entries[k], k in back)
      ensures r.Done? && !faulty && CanPutBack(entries, old(disk)) ==> forall k :: 0 <= k < |entries| ==> k in back
      ensures forall k :: k in back ==> k < |entries|
    {
      hide Distinct;
      back := {};
      for i := |entries| downto 0
        invariant disk == old(disk).(files := disk.files) && OnlyPutBack(old(disk), disk, entries)
        invariant forall k :: k in back ==> i <= k < |entries|
        invariant Distinct(Binaries(entries)) ==> forall k :: 0 <= k < |entries| ==> EntryBack(old(disk), disk, entries[k], k in back)
        invariant !faulty && CanPutBack(entries, old(disk)) ==> forall k :: i <= k < |entries| ==> k in back
      {
        var e := entries[i];
        assert Binaries(entries)[i] == e.binary;
        ghost var d := disk;
        r := ReplaceOneBack(e);
        if PutBack(e, disk) { back := back + {i}; }
        if Distinct(Binaries(entries)) { OtherPaths(entries, i); }
        if r.Crashed? { return; }
      }
      r := Done(());
    }

    lemma OtherPaths(entries: seq<Entry>, i: nat)
      requires Distinct(Binaries(entries)) && i < |entries|
      ensures forall k :: 0 <= k < |entries| && k != i ==> entries[k].binary.path != entries[i].binary.path
    {
      assert forall k :: 0 <= k < |entries| ==> Binaries(entries)[k] == entries[k].binary;
    }

    /** One write of `undo`; its failure is only noted. */
    method ReplaceOneBack(e: Entry) returns (r: Step<()>)
      modifies this`disk
      ensures disk == old(disk) ||
        (e.backup in old(disk).copies && e.binary.path in old(disk).files
         && disk == old(disk).(files := old(disk).files[e.binary.path := old(disk).copies[e.backup]]))
      ensures r.Done? && !faulty && e.backup in old(disk).copies && e.binary.path in old(disk).files ==> PutBack(e, disk)
    {
      var _ :- ReplaceFile(Copy(e.backup), e.binary.path);
      r := Done(());
    }

    /** The durable status names this job and asks for its recovery if it is in a replacing phase. */
    ghost predicate Owns(j: Job)
      reads this
    {
      && DurableJob(disk).Some? && Pending(DurableJob(disk).value)
      && DurableJob(disk).value.id == j.id && DurableJob(disk).value.action == j.action
      && DurableJob(disk).value.deadline == j.deadline
    }

    ghost predicate Recovering()
      reads this
    {
      DurableJob(disk).Some? && Pending(DurableJob(disk).value) && RecoveryPhase(DurableJob(disk).value.phase)
    }

    /** `entries` are what recovery of the durable job will put back. */
    ghost predicate CoveredBy(entries: seq<Entry>)
      reads this
    {
      Recovering() && RecoveryManifest(disk, DurableJob(disk).value).Some?
      && RecoveryManifest(disk, DurableJob(disk).value).value.entries == entries
    }

    /** What an undo of a prefix leaves. */
    lemma UndoneJournal(d: Disk, entries: seq<Entry>, n: nat)
      requires Journal(d, binaries, pre, target) && disk == d.(files := disk.files)
      requires CoveredBy(entries) && n <= |entries|
      requires OnlyPutBack(d, disk, entries[..n])
      ensures Journal(disk, binaries, pre, target)
      ensures (forall k :: 0 <= k < n ==> PutBack(entries[k], disk))
              && (forall k :: n <= k < |binaries| ==> d.files[binaries[k].path] == pre[binaries[k].path])
              ==> Agree(disk.files, pre, binaries)
    {
      var m := RecoveryManifest(d, DurableJob(d).value).value;
      forall i | 0 <= i < |binaries| && disk.files[binaries[i].path] != d.files[binaries[i].path]
        ensures disk.files[binaries[i].path] == pre[binaries[i].path]
      {
        var k :| 0 <= k < n && entries[..n][k].binary.path == binaries[i].path && PutBack(entries[..n][k], disk);
        assert Binaries(m.entries)[k].path == binaries[k].path;
        assert k == i;
      }
      assert EachOldOrNew(disk.files, binaries, pre, target);
      ReplacingKeepsJournal(d, disk, binaries, pre, target);
      forall k | 0 <= k < n && PutBack(entries[k], disk)
        ensures disk.files[binaries[k].path] == pre[binaries[k].path]
      {
        assert Binaries(m.entries)[k].path == binaries[k].path;
      }
    }

    /** Journaled backups can be put back: only a failing write stops an undo. */
    lemma RestorableBy(entries: seq<Entry>, n: nat)
      requires Journal(disk, binaries, pre, target) && CoveredBy(entries) && n <= |entries|
      ensures CanPutBack(entries[..n], disk)
    {
      var m := RecoveryManifest(disk, DurableJob(disk).value).value;
      forall k | 0 <= k < n ensures entries[..n][k].backup in disk.copies && entries[..n][k].binary.path in disk.files {
        assert Binaries(m.entries)[k].path == binaries[k].path;
      }
    }

    /** Recovery is armed with `entries`; the first `n` binaries are new and the others are old. */
    ghost predicate Halfway(entries: seq<Entry>, n: nat)
      reads this
    {
      && loss.None? && Journaled() && CoveredBy(entries)
      && |entries| == |binaries|
      && (forall k :: 0 <= k < |binaries| ==> entries[k].binary.path == binaries[k].path)
      && (forall k :: 0 <= k < |binaries| ==> disk.files[binaries[k].path] == (if k < n then target else pre)[binaries[k].path])
    }

    /** Undoes the first `n` replacements. What that leaves is a mix exactly when the wrong binaries could not be put back. */
    method BackOut(entries: seq<Entry>, n: nat) returns (r: Step<()>, ghost back: set<nat>)
      requires n <= |entries|
      modifies this`disk, this`loss
      ensures disk == old(disk).(files := disk.files)
      ensures Onward() && LostHere()
      ensures old(Halfway(entries, n) || (n > 0 && Halfway(entries, n - 1))) ==>
        && Good() && PutBackAt(old(disk).files, disk.files, binaries, pre, back)
        && (r.Done? ==> (loss.None? <==> AllOrNothing(disk.files, binaries, pre, target)))
        && Covers(target, binaries) && (r.Done? ==> (loss.None? <==> Clean(old(disk).files, binaries, pre, target, back)))
    {
      hide Traced, Enrolled, Timeline, Journal, AllOrNothing, Agree, Clean, PutBackAt, Distinct, EachOldOrNew, OnlyPutBack, EntryBack, CanPutBack;
      ghost var d := disk;
      ghost var good := Halfway(entries, n) || (n > 0 && Halfway(entries, n - 1));
      if good { RestorableBy(entries, n); }
      r, back := Undo(entries[..n]);
      if good { Undone(d, entries, n, back, r.Done? && !faulty); }
      if r.Done? { GiveUp(); }
    }

    lemma Undone(d: Disk, entries: seq<Entry>, n: nat, back: set<nat>, all: bool)
      requires loss.None? && Journal(d, binaries, pre, target) && Timeline(hist, DurableJob(d), d.records.Keys) && Linked()
      requires disk == d.(files := disk.files) && CoveredBy(entries) && n <= |entries| == |binaries|
      requires forall k :: 0 <= k < |binaries| ==> entries[k].binary.path == binaries[k].path
      requires forall k :: n <= k < |binaries| ==> d.files[binaries[k].path] == pre[binaries[k].path]
      requires OnlyPutBack(d, disk, entries[..n]) && forall k :: k in back ==> k < n
      requires Distinct(Binaries(entries[..n])) ==> forall k :: 0 <= k < n ==> EntryBack(d, disk, entries[..n][k], k in back)
      requires all ==> forall k :: 0 <= k < n ==> k in back
      ensures Journaled() && Orderly(hist) && PutBackAt(d.files, disk.files, binaries, pre, back) && Covers(target, binaries)
      ensures AllOrNothing(disk.files, binaries, pre, target) <==> Clean(d.files, binaries, pre, target, back)
      ensures all ==> AllOrNothing(disk.files, binaries, pre, target)
    {
      hide Timeline;
      assert Distinct(Binaries(entries[..n]));
      assert forall k :: 0 <= k < n ==> entries[..n][k] == entries[k];
      UndoneJournal(d, entries, n);
      UndoneAt(d, entries, n, back);
      GivingUpExactly(d.files, disk.files, binaries, pre, target, back);
      JournaledOrderly();
    }

    /** What an undo of a prefix puts back, binary by binary. */
    lemma UndoneAt(d: Disk, entries: seq<Entry>, n: nat, back: set<nat>)
      requires Journal(d, binaries, pre, target) && disk == d.(files := disk.files)
      requires CoveredBy(entries) && n <= |entries| && forall k :: k in back ==> k < n
      requires OnlyPutBack(d, disk, entries[..n])
      requires forall k :: 0 <= k < n ==> EntryBack(d, disk, entries[k], k in back)
      ensures PutBackAt(d.files, disk.files, binaries, pre, back)
      ensures (forall k :: 0 <= k < n ==> k in back) && (forall k :: n <= k < |binaries| ==> d.files[binaries[k].path] == pre[binaries[k].path])
        ==> Agree(disk.files, pre, binaries)
    {
      var m := RecoveryManifest(d, DurableJob(d).value).value;
      assert forall k :: 0 <= k < |binaries| ==> Binaries(m.entries)[k].path == binaries[k].path == entries[k].binary.path;
      forall i | 0 <= i < |binaries| ensures disk.files[binaries[i].path] == (if i in back then pre else d.files)[binaries[i].path] {
        if i < n {
          assert EntryBack(d, disk, entries[i], i in back);
        } else {
          forall k | 0 <= k < n ensures entries[..n][k].binary.path != binaries[i].path { }
        }
      }
    }

    method ReplaceNext(images: seq<Option<Image>>, undo: seq<Entry>, n: nat) returns (r: Step<bool>)
      requires n < |images| == |undo|
      modifies this`disk
      ensures disk == old(disk).(files := disk.files)
      ensures old(Halfway(undo, n)) && Installs(images) ==>
        && (Halfway(undo, n) || Halfway(undo, n + 1))
        && (r == Done(true) ==> Halfway(undo, n + 1))
        && (r == Done(false) ==> faulty)
    {
      ghost var d := disk;
      ghost var good := Halfway(undo, n) && Installs(images);
      r := ReplaceFile(images[n], undo[n].binary.path);
      if good { ReplacedOne(d, undo, n); }
    }

    /** The replacing loop of `apply` and of `rollback`: one binary at a time, undoing a prefix on refusal. */
    method ReplaceAll(images: seq<Option<Image>>, undo: seq<Entry>) returns (r: Step<bool>)
      requires |images| == |undo|
      modifies this`disk, this`loss
      ensures disk == old(disk).(files := disk.files)
      ensures Onward() && LostHere() && (r == Done(true) ==> loss == old(loss))
      ensures old(Halfway(undo, 0)) && Installs(images)
              ==> && Good()
                  && (r == Done(true) ==> Halfway(undo, |binaries|) && Agree(disk.files, target, binaries))
                  && (r == Done(false) ==> loss.Some? || AllOrNothing(disk.files, binaries, pre, target))
                  && (r == Done(false) ==> faulty || !smooth)
    {
      hide Journal, Timeline, Traced, Enrolled, Clean, PutBackAt, Covers, AllOrNothing, Agree;
      ghost var d0 := disk;
      ghost var good := Halfway(undo, 0) && Installs(images);
      var undone: ();
      ghost var back: set<nat>;
      for i := 0 to |undo|
        invariant disk == d0.(files := disk.files)
        invariant Onward() && loss == old(loss)
        invariant good ==> Halfway(undo, i) && |undo| == |binaries|
      {
        if good { HalfwayHash(undo, i); }
        var hash := FileHash(Installed(undo[i].binary.path));
        var allowed := Authorize();
        if hash != Some(undo[i].before) || !allowed {
          undone, back :- BackOut(undo, i);
          return Done(false);
        }
        var ok :- ReplaceNext(images, undo, i);
        if !ok {
          undone, back :- BackOut(undo, i + 1);
          return Done(false);
        }
      }
      if good { AllReplaced(undo); }
      r := Done(true);
    }

    /** What is to be replaced next is what was backed up. */
    lemma HalfwayHash(entries: seq<Entry>, n: nat)
      requires Halfway(entries, n) && n < |binaries|
      ensures Installed(entries[n].binary.path).Some? && entries[n].before == Sha256(Installed(entries[n].binary.path).value)
    {
      hide Timeline, Traced, Enrolled, Agree, AllOrNothing;
      var m := RecoveryManifest(disk, DurableJob(disk).value).value;
      assert Hashed(m, binaries, pre, target);
      JournalEach(disk, binaries, pre, target);
    }

    lemma AllReplaced(entries: seq<Entry>)
      requires Halfway(entries, |binaries|)
      ensures Agree(disk.files, target, binaries)
    {
    }

    ghost predicate Installs(images: seq<Option<Image>>)
      reads this`binaries, this`target
    {
      |images| == |binaries| &&
      forall i :: 0 <= i < |binaries| ==> binaries[i].path in target && images[i] == Some(target[binaries[i].path])
    }

    /** One more binary was replaced, or the write left things as they were. */
    lemma ReplacedOne(d: Disk, entries: seq<Entry>, n: nat)
      requires n < |binaries| && Journal(d, binaries, pre, target) && Timeline(hist, DurableJob(d), d.records.Keys) && Linked() && loss.None?
      requires |entries| == |binaries| && forall k :: 0 <= k < |binaries| ==> entries[k].binary.path == binaries[k].path
      requires forall k :: 0 <= k < |binaries| ==> d.files[binaries[k].path] == (if k < n then target else pre)[binaries[k].path]
      requires disk == d || disk == d.(files := d.files[binaries[n].path := target[binaries[n].path]])
      requires CoveredBy(entries)
      ensures Halfway(entries, n) || Halfway(entries, n + 1)
      ensures disk == d.(files := d.files[binaries[n].path := target[binaries[n].path]]) ==> Halfway(entries, n + 1)
    {
      ReplacingKeepsJournal(d, disk, binaries, pre, target);
    }

    // ----- apply -----

    /** Hashes and copies every binary before any is replaced. */
    method BackUp(job: Job, staged: map<string, Image>) returns (r: Step<Option<seq<Entry>>>)
      requires forall i :: 0 <= i < |binaries| ==> binaries[i].name in staged
      modifies this`disk
      ensures disk == old(disk).(copies := disk.copies)
      ensures forall k :: k in old(disk).copies ==> k in disk.copies && disk.copies[k] == old(disk).copies[k]
      ensures r.Done? && r.value.Some? ==> BacksUp(r.value.value, staged, |binaries|)
      ensures r == Done(None) ==> faulty || !old(NoCopies(disk.copies, job.id)) || !Covers(disk.files, binaries)
    {
      var failed := Fails();
      if failed || !NoCopies(disk.copies, job.id) { return Done(None); }
      var entries: seq<Entry> := [];
      for i := 0 to |binaries|
        invariant disk == old(disk).(copies := disk.copies)
        invariant forall k :: k in old(disk).copies ==> k in disk.copies && disk.copies[k] == old(disk).copies[k]
        invariant BacksUp(entries, staged, i)
        invariant forall k :: 0 <= k < i ==> entries[k].backup == BackupCopy(job.id, k)
      {
        var b := binaries[i];
        var hash := FileHash(Installed(b.path));
        var after := FileHash(Some(staged[b.name]));
        if hash.None? || after.None? { return Done(None); }
        var copy := BackupCopy(job.id, i);
        var ok :- CopyAside(b.path, copy);
        if !ok { return Done(None); }
        var copied := FileHash(Copy(copy));
        if copied != hash { return Done(None); }
        entries := entries + [Entry(b, copy, hash.value, after.value)];
      }
      r := Done(Some(entries));
    }

    ghost predicate BacksUp(entries: seq<Entry>, staged: map<string, Image>, n: nat)
      reads this`binaries, this`disk
    {
      Backs(binaries, disk.files, disk.copies, entries, staged, n)
    }

    /** A job that was admitted and has not touched a binary. */
    ghost predicate Admitted(j: Job)
      reads this
    {
      && loss.None? && Journaled() && Owns(j) && Pending(j)
      && !RecoveryPhase(DurableJob(disk).value.phase) && Agree(disk.files, pre, binaries)
      && Unowned(if j.action.Rollback? then disk.backup else disk.undo, j.id)
    }

    /** How `apply` and `rollback` leave a job: everything installed and recoverable, or nothing changed. */
    ghost predicate Ran(job: Job)
      reads this
    {
      && Journaled() && Owns(job) && Pending(job)
      && if job.restartRequired
         then Armed(job, disk, binaries, pre, target) && Agree(disk.files, target, binaries)
         else AllOrNothing(disk.files, binaries, pre, target)
    }

    /** Backs the binaries up and makes the manifest durable. */
    method SaveBackup(tag: string, job: Job, staged: Release) returns (r: Step<bool>)
      requires staged in releases && Brings(staged, tag, binaries)
      modifies this`disk, this`target
      ensures target == old(target) || (disk.backup.Some? && disk.backup.value.id == job.id && Installs(Staged(staged.images)))
      ensures disk == old(disk).(copies := disk.copies, backup := disk.backup)
      ensures r == Done(false) ==> faulty || !old(NoCopies(disk.copies, job.id)) || !Covers(disk.files, binaries)
      ensures r == Done(true) ==> disk.backup.Some? && |disk.backup.value.entries| == |binaries|
      ensures old(Admitted(job)) && job.action.Apply? ==>
        && Admitted(job)
        && (r == Done(true) ==> Armed(job, disk, binaries, pre, target) && Installs(Staged(staged.images)))
    {
      hide Traced, Enrolled, Timeline, Journal, Restores, RollsBackTo, Agree, Backs;
      ghost var good := Admitted(job) && job.action.Apply?;
      if good { JournalDistinct(disk, binaries, pre, target); }
      ghost var d := disk;
      var backed := BackUp(job, staged.images);
      if good { PreparingKeepsJournal(d, disk, binaries, pre, target, target); }
      if backed.Crashed? { return Crashed; }
      if backed.value.None? { return Done(false); }
      BackedTargets(backed.value.value, staged.images);
      var manifest := Manifest(job.id, tag, backed.value.value);
      r := WriteManifest(manifest, false);
      if good && disk.backup == Some(manifest) {
        AimAtRelease(d, manifest, staged);
      } else if good {
        PreparingKeepsJournal(d, disk, binaries, pre, target, target);
      }
    }

    /** With its backup manifest durable, the update's target is the release it staged. */
    ghost method AimAtRelease(d: Disk, manifest: Manifest, staged: Release)
      requires Journal(d, binaries, pre, target) && Traced(d.backup, d.undo, Some(manifest.id), binaries, pre, target, began, first, releases)
      requires DurableJob(d).Some? && Pending(DurableJob(d).value) && !RecoveryPhase(DurableJob(d).value.phase)
      requires disk == d.(copies := disk.copies, backup := Some(manifest)) && Unowned(d.undo, manifest.id)
      requires Agree(disk.files, pre, binaries) && BacksUp(manifest.entries, staged.images, |binaries|)
      requires staged in releases && forall i :: 0 <= i < |binaries| ==> binaries[i].name in staged.images
      requires SameTargets(Binaries(manifest.entries), binaries)
      modifies this`target
      ensures Journal(disk, binaries, pre, target) && Traced(disk.backup, disk.undo, Some(manifest.id), binaries, pre, target, began, first, releases)
      ensures Restores(manifest, disk.copies, binaries, pre, target) && Installs(Staged(staged.images))
    {
      hide Traced, Restores, Journal, Agree, Backs;
      JournalDistinct(d, binaries, pre, target);
      ghost var target0, bs := target, binaries;
      target := Installation(bs, seq(|bs|, i requires 0 <= i < |bs| => staged.images[bs[i].name]));
      assert Covers(target, bs);
      PreparingKeepsJournal(d, disk, bs, pre, target0, target);
      BackupArmed(manifest, staged);
      TracedBackup(manifest, d.backup, disk.undo, bs, pre, target0, target, began, first, releases, staged);
    }

    lemma BackedTargets(entries: seq<Entry>, staged: map<string, Image>)
      requires BacksUp(entries, staged, |binaries|)
      ensures SameTargets(Binaries(entries), binaries) && |entries| == |binaries|
    {
    }

    lemma BackupArmed(manifest: Manifest, staged: Release)
      requires Agree(disk.files, pre, binaries) && BacksUp(manifest.entries, staged.images, |binaries|)
      requires forall i :: 0 <= i < |binaries| ==> binaries[i].path in target && target[binaries[i].path] == staged.images[binaries[i].name]
      ensures Restores(manifest, disk.copies, binaries, pre, target) && Hashed(manifest, binaries, pre, target)
      ensures FromRelease(target, binaries, staged) && Installs(Staged(staged.images))
    {
    }

    /** A phase in which no binary is touched yet. */
    method EnterEarly(job0: Job, p: Phase) returns (r: Step<bool>, job: Job)
      requires !RecoveryPhase(p)
      modifies this`disk, this`status, this`hist
      ensures Marks(job0.state)
      ensures old(hist) <= hist && job == job0.(phase := p)
      ensures disk == old(disk).(records := disk.records, status := disk.status)
      ensures r == Done(false) ==> faulty
      ensures status.currentVersion == old(status).currentVersion
      ensures old(Admitted(job0)) ==> Admitted(job)
    {
      hide Timeline, Journal, Armed, Agree, Traced, Enrolled;
      r, job := EnterPhase(job0, p);
    }

    /** `apply` up to the durable backup manifest; no binary has been touched yet. */
    method Prepare(tag: string, job0: Job) returns (r: Step<Option<seq<Option<Image>>>>, job: Job)
      modifies this`disk, this`status, this`hist, this`target
      ensures Marks(job0.state)
      ensures old(hist) <= hist
      ensures job == job0.(phase := job.phase)
      ensures status.currentVersion == old(status).currentVersion
      ensures old(Admitted(job0)) && job0.action.Apply? ==>
        && Admitted(job)
        && (r.Done? && r.value.Some? ==> Armed(job, disk, binaries, pre, target) && Installs(r.value.value))
      ensures r.Done? && r.value.Some? ==> exists release :: release in releases && Brings(release, tag, binaries) && r.value.value == Staged(release.images)
      ensures r == Done(None) ==> faulty || !smooth || !Available(tag) || !old(NoCopies(disk.copies, job0.id)) || !Covers(disk.files, binaries)
      ensures r.Done? && r.value.Some? ==> disk.backup.Some? && |disk.backup.value.entries| == |r.value.value|
    {
      hide Journaled, Agree, Armed, NoCopies, Owns;
      job := job0;
      var ok;
      ok, job :- EnterEarly(job, Staging);
      if !ok { return Done(None), job; }
      var staged := Stage(tag);
      var allowed := Authorize();
      if staged.None? || !allowed { return Done(None), job; }
      ok, job :- EnterEarly(job, BackingUp);
      if !ok { return Done(None), job; }
      assert old(NoCopies(disk.copies, job0.id)) ==> NoCopies(disk.copies, job.id);
      ok :- SaveBackup(tag, job, staged.value);
      r := Done(if ok then Some(Staged(staged.value.images)) else None);
    }

    method Apply(tag: string, job0: Job) returns (r: Step<bool>, job: Job)
      modifies this`disk, this`status, this`hist, this`loss, this`target
      ensures Marks(job0.state)
      ensures Onward() && LostHere() && (r == Done(true) ==> loss == old(loss))
      ensures job == job0.(phase := job.phase, restartRequired := job.restartRequired)
      ensures status.currentVersion == old(status).currentVersion
      // an update that succeeds has nothing to do, or has installed the release it names
      ensures r == Done(true) && !job.restartRequired ==> UpToDate(tag)
      ensures old(Admitted(job0)) && job0.action.Apply? && !job0.restartRequired ==>
        && Good() && (r.Done? ==> loss.Some? || Ran(job)) && (r == Done(false) ==> !job.restartRequired)
        && (r == Done(true) && job.restartRequired ==> Updated(tag, job.id))
        && (r == Done(false) ==> faulty || !smooth || !Available(tag) || !old(NoCopies(disk.copies, job0.id)))
    {
      hide Timeline, Restores, RollsBackTo, EachOldOrNew, Agree, SameTargets, Distinct, Traced, Enrolled, Journal;
      ghost var good := Admitted(job0) && job0.action.Apply? && !job0.restartRequired;
      job := job0;
      if |binaries| > 0 && forall b :: b in binaries ==> b.version == tag { return Done(true), job; }
      var images;
      images, job :- Prepare(tag, job);
      if good { AgreeCovers(disk.files, pre, binaries); }
      if images.None? { return Done(false), job; }
      r, job := Replace(images.value, job, Replacing, disk.backup.value.entries);
      if good && r == Done(true) { ReleaseInstalled(tag, images.value); }
    }

    /** Every binary has this version already. */
    ghost predicate UpToDate(tag: string)
      reads this`binaries
    {
      |binaries| > 0 && forall b :: b in binaries ==> b.version == tag
    }

    /** Every binary is that of a release with this tag, and the backup is this job's. */
    ghost predicate Updated(tag: string, id: string)
      reads this`disk, this`binaries
    {
      && (exists release :: release in releases && release.tag == tag && FromRelease(disk.files, binaries, release))
      && disk.backup.Some? && disk.backup.value.id == id
    }

    lemma ReleaseInstalled(tag: string, images: seq<Option<Image>>)
      requires Agree(disk.files, target, binaries) && Installs(images)
      requires exists release :: release in releases && Brings(release, tag, binaries) && images == Staged(release.images)
      ensures exists release :: release in releases && release.tag == tag && FromRelease(disk.files, binaries, release)
    {
      var release :| release in releases && Brings(release, tag, binaries) && images == Staged(release.images);
      forall i | 0 <= i < |binaries| ensures disk.files[binaries[i].path] == release.images[binaries[i].name] {
        assert images[i] == Some(release.images[binaries[i].name]);
      }
      assert FromRelease(disk.files, binaries, release);
    }

    /** Journals the replacing phase, then replaces; shared by `apply` and `rollback`. */
    method Replace(images: seq<Option<Image>>, job0: Job, p: Phase, entries: seq<Entry>) returns (r: Step<bool>, job: Job)
      requires |images| == |entries| && RecoveryPhase(p)
      modifies this`disk, this`status, this`hist, this`loss
      ensures Marks(job0.state)
      ensures Onward() && LostHere() && (r == Done(true) ==> loss == old(loss))
      ensures r == Done(true) ==> job.restartRequired
      ensures job == job0.(phase := p, restartRequired := job.restartRequired)
      ensures status.currentVersion == old(status).currentVersion
      ensures old(Admitted(job0) && Armed(job0, disk, binaries, pre, target)) && Installs(images)
              && old(RecoveryManifest(disk, job0)).value.entries == entries && !job0.restartRequired ==>
        && Good() && (r.Done? ==> loss.Some? || Ran(job)) && (r == Done(false) ==> !job.restartRequired)
        && (r == Done(false) ==> faulty || !smooth)
    {
      hide Traced, Enrolled, Timeline, Restores, RollsBackTo, EachOldOrNew, Agree, SameTargets, Distinct;
      ghost var good := Admitted(job0) && Armed(job0, disk, binaries, pre, target) && Installs(images)
        && RecoveryManifest(disk, job0).value.entries == entries && !job0.restartRequired;
      var ok;
      ok, job :- EnterPhase(job0, p);
      if !ok { return Done(false), job; }
      if good { ArmedHalfway(job, entries); }
      ok :- ReplaceAll(images, entries);
      if !ok { return Done(false), job; }
      job := job.(restartRequired := true);
      r := Done(true);
    }

    lemma ArmedHalfway(j: Job, entries: seq<Entry>)
      requires loss.None? && Journaled() && DurableJob(disk) == Some(j) && Pending(j) && RecoveryPhase(j.phase)
      requires RecoveryManifest(disk, j).value.entries == entries && Agree(disk.files, pre, binaries)
      ensures Halfway(entries, 0)
    {
      var m := RecoveryManifest(disk, j).value;
      forall k | 0 <= k < |binaries| ensures entries[k].binary.path == binaries[k].path {
        assert Binaries(m.entries)[k].path == binaries[k].path;
      }
    }

    function Staged(staged: map<string, Image>): (images: seq<Option<Image>>)
      requires forall i :: 0 <= i < |binaries| ==> binaries[i].name in staged
      reads this
    {
      seq(|binaries|, i requires 0 <= i < |binaries| reads this => if binaries[i].name in staged then Some(staged[binaries[i].name]) else None)
    }

    // ----- rollback -----

    /** `undo` reverses installing the backups of the first `n` of `entries`. */
    ghost predicate Reverses(undo: seq<Entry>, entries: seq<Entry>, n: nat)
      reads this`disk
    {
      && n <= |entries| && |undo| == n
      && forall i :: 0 <= i < n ==>
        && undo[i].binary.path == entries[i].binary.path && undo[i].binary.name == entries[i].binary.name
        && entries[i].binary.path in disk.files
        && undo[i].backup in disk.copies && disk.copies[undo[i].backup] == disk.files[entries[i].binary.path]
        && undo[i].before == Sha256(disk.files[entries[i].binary.path])
        && entries[i].backup in disk.copies && entries[i].before == Sha256(disk.copies[entries[i].backup])
        && undo[i].after == entries[i].before
    }

    /** Verifies the backups and copies the current binaries aside. */
    method CopyCurrent(job: Job, entries: seq<Entry>, dir: nat) returns (r: Step<Option<seq<Entry>>>)
      requires forall k :: k in disk.copies && k.UndoCopy? ==> k.dir != dir
      modifies this`disk
      ensures disk == old(disk).(copies := disk.copies)
      ensures r.Done? && r.value.Some? ==> Reverses(r.value.value, entries, |entries|)
      ensures r == Done(None) ==> faulty || !old(Reversible(disk.files, disk.copies, entries))
    {
      var undo: seq<Entry> := [];
      for i := 0 to |entries|
        invariant disk == old(disk).(copies := disk.copies)
        invariant forall k :: k in disk.copies && k.UndoCopy? && k.dir == dir ==> k.index < i
        invariant Reverses(undo, entries, i)
        invariant forall k :: k in old(disk).copies ==> k in disk.copies && disk.copies[k] == old(disk).copies[k]
      {
        var e := entries[i];
        var hash := FileHash(Copy(e.backup));
        if hash != Some(e.before) { return Done(None); }
        hash := FileHash(Installed(e.binary.path));
        if hash != Some(e.after) && hash != Some(e.before) { return Done(None); }
        var current := UndoCopy(dir, i);
        assert current !in disk.copies;
        var ok :- CopyAside(e.binary.path, current);
        if !ok { return Done(None); }
        var copied := FileHash(Copy(current));
        if copied != hash { return Done(None); }
        undo := undo + [Entry(e.binary.(version := job.currentVersion), current, hash.value, e.before)];
      }
      r := Done(Some(undo));
    }

    /** Deletes a scratch directory, or part of it. */
    method RemoveScratch(dir: nat, ghost job: Job) returns (r: Step<()>)
      modifies this`disk
      ensures disk == old(disk).(copies := disk.copies)
      ensures old(Admitted(job)) ==> Admitted(job)
    {
      ghost var good, d := Admitted(job), disk;
      var some: set<CopyPath> := *;
      disk := disk.(copies := disk.copies - set k | k in disk.copies && k.UndoCopy? && k.dir == dir && k in some);
      if good { PreparingKeepsJournal(d, disk, binaries, pre, target, target); }
      var crash: bool := *;
      r := if crash then Crashed else Done(());
    }

    /** The scratch copies and the undo manifest. */
    method WriteUndo(job: Job, manifest: Manifest, dir: nat) returns (r: Step<bool>)
      requires forall k :: k in disk.copies && k.UndoCopy? ==> k.dir != dir
      modifies this`disk, this`target
      ensures target == old(target) || (disk.undo.Some? && disk.undo.value.id == job.id && RollsBackTo(manifest, binaries, target))
      ensures disk == old(disk).(copies := disk.copies, undo := disk.undo)
      ensures r == Done(false) ==> faulty || !old(Reversible(disk.files, disk.copies, manifest.entries))
      ensures r == Done(true) ==> disk.undo.Some? && |disk.undo.value.entries| == |manifest.entries|
      ensures old(Admitted(job)) && job.action.Rollback? && old(disk).backup == Some(manifest) ==>
        && Admitted(job)
        && (r == Done(true) ==> Armed(job, disk, binaries, pre, target) && Installs(Copies(manifest.entries)))
    {
      hide Traced, Enrolled, Timeline, Restores, RollsBackTo, Journal, Agree;
      ghost var good := Admitted(job) && job.action.Rollback? && disk.backup == Some(manifest);
      ghost var d := disk;
      if good { JournalDistinct(disk, binaries, pre, target); }
      var copied := CopyCurrent(job, manifest.entries, dir);
      if good { PreparingKeepsJournal(d, disk, binaries, pre, target, target); }
      if copied.Crashed? { return Crashed; }
      if copied.value.None? { return Done(false); }
      var undo := Manifest(job.id, job.currentVersion, copied.value.value);
      r := WriteManifest(undo, true);
      if good && disk.undo == Some(undo) {
        AimAtBackup(d, undo, manifest);
      } else if good {
        PreparingKeepsJournal(d, disk, binaries, pre, target, target);
      }
    }

    /** With its undo manifest durable, the rollback's target is what the backup holds. */
    ghost method AimAtBackup(d: Disk, undo: Manifest, manifest: Manifest)
      requires Journal(d, binaries, pre, target) && Traced(d.backup, d.undo, Some(undo.id), binaries, pre, target, began, first, releases)
      requires DurableJob(d).Some? && Pending(DurableJob(d).value) && !RecoveryPhase(DurableJob(d).value.phase)
      requires disk == d.(copies := disk.copies, undo := Some(undo)) && d.backup == Some(manifest) && manifest.id != undo.id
      requires Agree(disk.files, pre, binaries) && Reverses(undo.entries, manifest.entries, |manifest.entries|)
      modifies this`target
      ensures Journal(disk, binaries, pre, target) && Traced(disk.backup, disk.undo, Some(undo.id), binaries, pre, target, began, first, releases)
      ensures Restores(undo, disk.copies, binaries, pre, target) && RollsBackTo(manifest, binaries, target) && Installs(Copies(manifest.entries))
    {
      hide Traced, Restores, RollsBackTo, Journal, Agree, Reverses;
      JournalDistinct(d, binaries, pre, target);
      ghost var target0, bs := target, binaries;
      target := Installation(bs, seq(|bs|, i requires 0 <= i < |bs| => manifest.entries[i].before.of));
      assert Covers(target, bs);
      PreparingKeepsJournal(d, disk, bs, pre, target0, target);
      UndoArmed(undo.entries, manifest);
      TracedUndo(undo, manifest, d.undo, bs, pre, target0, target, began, first, releases);
    }

    /** A scratch directory of its own. */
    method PickDir() returns (dir: nat)
      ensures forall k :: k in disk.copies && k.UndoCopy? ==> k.dir != dir
    {
      var random :| random >= 0;
      dir := random;
      var left := disk.copies.Keys;
      while left != {}
        invariant left <= disk.copies.Keys
        invariant forall k :: k in disk.copies && k !in left && k.UndoCopy? ==> k.dir < dir
        decreases |left|
      {
        var k :| k in left;
        left := left - {k};
        if k.UndoCopy? && k.dir >= dir { dir := k.dir + 1; }
      }
    }

    /** `rollback` up to the durable undo manifest; a failed attempt removes its scratch copies. */
    method SaveUndo(job: Job, manifest: Manifest) returns (r: Step<bool>)
      modifies this`disk, this`target
      ensures target == old(target) || (disk.undo.Some? && disk.undo.value.id == job.id && RollsBackTo(manifest, binaries, target))
      ensures disk == old(disk).(copies := disk.copies, undo := disk.undo)
      ensures r == Done(false) ==> faulty || !old(Reversible(disk.files, disk.copies, manifest.entries))
      ensures r == Done(true) ==> disk.undo.Some? && |disk.undo.value.entries| == |manifest.entries|
      ensures old(Admitted(job)) && job.action.Rollback? && old(disk).backup == Some(manifest) ==>
        && Admitted(job)
        && (r == Done(true) ==> Armed(job, disk, binaries, pre, target) && Installs(Copies(manifest.entries)))
    {
      hide Timeline, Journal, Restores, RollsBackTo, Agree;
      var failed := Fails();
      if failed { return Done(false); }
      var dir := PickDir();
      var ok :- WriteUndo(job, manifest, dir);
      if !ok {
        var _ :- RemoveScratch(dir, job);
      }
      r := Done(ok);
    }

    lemma UndoArmed(undo: seq<Entry>, manifest: Manifest)
      requires Journal(disk, binaries, pre, target) && Agree(disk.files, pre, binaries)
      requires disk.backup == Some(manifest) && Reverses(undo, manifest.entries, |manifest.entries|)
      requires forall i :: 0 <= i < |binaries| ==> binaries[i].path in target && manifest.entries[i].before == Sha256(target[binaries[i].path])
      ensures forall id, v :: Restores(Manifest(id, v, undo), disk.copies, binaries, pre, target)
      ensures forall id, v :: Hashed(Manifest(id, v, undo), binaries, pre, target)
      ensures RollsBackTo(manifest, binaries, target) && Installs(Copies(manifest.entries))
    {
      assert forall i :: 0 <= i < |binaries| ==> Binaries(manifest.entries)[i].path == binaries[i].path;
    }

    function Copies(entries: seq<Entry>): (images: seq<Option<Image>>)
      reads this
      ensures |images| == |entries| && forall i :: 0 <= i < |entries| ==> images[i] == Copy(entries[i].backup)
    {
      seq(|entries|, i requires 0 <= i < |entries| reads this => Copy(entries[i].backup))
    }

    /** There is a readable, intact backup of what is installed. */
    ghost predicate CanRollBack()
      reads this`disk
    {
      disk.backup.Some? && fits.manifest(disk.backup.value) && Reversible(disk.files, disk.copies, disk.backup.value.entries)
    }

    /** Every binary is what the backup holds, and the undo data is this job's. */
    ghost predicate RolledBackTo(id: string)
      reads this`disk, this`binaries
    {
      disk.backup.Some? && RollsBackTo(disk.backup.value, binaries, disk.files) && disk.undo.Some? && disk.undo.value.id == id
    }

    lemma BackupInstalled()
      requires Agree(disk.files, target, binaries) && disk.backup.Some? && RollsBackTo(disk.backup.value, binaries, target)
      ensures RollsBackTo(disk.backup.value, binaries, disk.files)
    {
    }

    method RollBack(job0: Job) returns (r: Step<bool>, job: Job)
      modifies this`disk, this`status, this`hist, this`loss, this`target
      ensures Marks(job0.state)
      ensures Onward() && LostHere() && (r == Done(true) ==> loss == old(loss))
      ensures r == Done(true) ==> job.restartRequired
      ensures job == job0.(phase := job.phase, restartRequired := job.restartRequired)
      ensures status.currentVersion == old(status).currentVersion
      ensures old(Admitted(job0)) && job0.action.Rollback? && !job0.restartRequired ==>
        && Good() && (r.Done? ==> loss.Some? || Ran(job)) && (r == Done(false) ==> !job.restartRequired)
        && (r == Done(true) ==> RolledBackTo(job.id))
        && (r == Done(false) ==> faulty || !smooth || !old(CanRollBack()))
    {
      hide Timeline, Restores, RollsBackTo, EachOldOrNew, SameTargets, Distinct, Traced, Enrolled, Journal;
      ghost var good := Admitted(job0) && job0.action.Rollback? && !job0.restartRequired;
      job := job0;
      var allowed := Authorize();
      var failed := Fails();
      if !allowed || failed || disk.backup.None? || !fits.manifest(disk.backup.value) { return Done(false), job; }
      var manifest := disk.backup.value;
      var ok :- SaveUndo(job, manifest);
      if !ok { return Done(false), job; }
      r, job := Replace(Copies(manifest.entries), job, RestoringBackup, disk.undo.value.entries);
      if good && r == Done(true) { BackupInstalled(); }
    }

    // ----- admission and the job's run -----

    /** No job is between its first and its last replacement. */
    ghost predicate Idle()
      reads this
    {
      loss.None? && Journaled() && AllOrNothing(disk.files, binaries, pre, target)
    }

    /** Nothing began, or job `id` did: it is durable, and what was installed is what it began with. */
    twostate predicate Begins(id: string)
      reads this`pre, this`target, this`began, this`hist, this`disk
    {
      || (pre == old(pre) && target == old(target) && began == old(began) && hist == old(hist))
      || (pre == target == old(disk).files && began == old(began) + [Began(Some(id), old(disk).files)] && DurableId(disk) == Some(id))
    }

    /** An update to this version would be one from an unknown version, or a downgrade. */
    predicate Downgrades(action: Action, version: string)
      reads this`status
    {
      action.Apply? && (!order.valid(status.currentVersion) || (version != "" && order.older(version, status.currentVersion)))
    }

    /** A job that may still change something. */
    predicate Busy()
      reads this`active, this`status
    {
      active || (status.job.Some? && Pending(status.job.value))
    }

    /** `Start`: refuses downgrades, and everything while a job is active or unsettled, else makes a fresh job durable. */
    method Admit(action: Action, version: string, id: string) returns (r: Step<Option<Job>>)
      requires id !in disk.records   // 128 random bits
      modifies this`disk, this`status, this`hist, this`active, this`pre, this`target, this`began
      ensures Begins(id)
      ensures disk == old(disk).(records := disk.records, status := disk.status)
      ensures old(hist) <= hist
      ensures status.currentVersion == old(status).currentVersion
      ensures disk.files == old(disk).files
      ensures old(Busy() || Downgrades(action, version)) ==> r == Done(None) && disk == old(disk) && status == old(status) && active == old(active)
      ensures r == Done(None) && smooth && !faulty ==> old(Busy() || Downgrades(action, version))
      ensures r.Done? && r.value.Some? ==>
        && active && r.value.value == Job(id, action, version, status.currentVersion, Running, Queued, None, false)
      ensures old(Idle()) ==>
        Idle() && (r.Done? && r.value.Some? ==> Admitted(r.value.value) && Synced(r.value.value))
    {
      hide Traced, Enrolled, Journal, Timeline, AllOrNothing, Agree;
      if Downgrades(action, version) || Busy() { return Done(None); }
      var hooked: bool := *;   // `BeforeStart`, the identifier, or `Started`
      if hooked && !smooth { return Done(None); }
      var job := Job(id, action, version, status.currentVersion, Running, Queued, None, false);
      var ok :- Enqueue(job);
      if !ok { return Done(None); }
      active := true;
      r := Done(Some(job));
    }

    /** Makes a fresh job durable: from then on, what is installed is what it began with. */
    method Enqueue(job: Job) returns (r: Step<bool>)
      requires job.id !in disk.records && Pending(job) && !RecoveryPhase(job.phase)
      modifies this`disk, this`status, this`hist, this`pre, this`target, this`began
      ensures Begins(job.id)
      ensures disk == old(disk).(records := disk.records, status := disk.status)
      ensures old(hist) <= hist
      ensures r == Done(false) ==> faulty
      ensures status.currentVersion == old(status).currentVersion && disk.files == old(disk).files
      ensures old(Idle()) ==> Idle() && (r == Done(true) ==> Admitted(job) && Synced(job))
    {
      hide Traced, Restores, RollsBackTo, SameTargets, Distinct, EachOldOrNew, Journal, AllOrNothing, Agree;
      ghost var good, d, h := Idle(), disk, hist;
      r := SaveJob(job);
      if good && hist == h { RecordsDoNotMatter(d, disk, binaries, pre, target); }
      if hist != h {
        if good {
          FreshJobJournal(d, disk, binaries, pre, target);
          TracedFresh(d.backup, d.undo, DurableId(d), binaries, pre, target, began, first, releases, d.files, d.records.Keys, job.id);
        }
        pre, target, began := disk.files, disk.files, began + [Began(Some(job.id), disk.files)];
      }
    }

    /** `run`: the whole job up to its saved result. The value says whether a restart is due. */
    method Run(job0: Job) returns (r: Step<bool>)
      modifies this`disk, this`status, this`hist, this`active, this`loss, this`target
      ensures Onward() && LostHere()
      // an update that is to be restarted into is no downgrade
      ensures r == Done(false) && !faulty ==> status.job.Some? && !Pending(status.job.value)
      ensures r.Done? && !job0.restartRequired && !job0.state.Restarting? ==> active == r.value
      ensures r == Done(true) || (r.Done? && !faulty) ==>
        status.job.Some? && status.job.value.id == job0.id && status.job.value.action == job0.action
      ensures r == Done(true) && job0.action.Apply? && !job0.restartRequired ==> !order.older(status.job.value.version, job0.currentVersion)
      // an update on record as succeeded found every binary at its version
      ensures !job0.state.Succeeded? && old(Honest(status.job) && Honest(DurableJob(disk))) ==> Honest(status.job) && Honest(DurableJob(disk))
      ensures status.currentVersion == old(status).currentVersion
      ensures old(Admitted(job0)) && !job0.restartRequired ==>
        && Good()
        && (r.Done? ==> loss.Some? || Idle())
        && (r == Done(true) ==> loss.Some? || (Ready() && Agree(disk.files, target, binaries)))
        && (r == Done(true) ==> if job0.action.Rollback? then RolledBackTo(job0.id) else Updated(status.job.value.version, job0.id))
        && (r == Done(false) && !faulty && smooth && job0.action.Apply? ==>
              status.job.Some? && (status.job.value.state.Succeeded? || Refusable(status.job.value, old(disk.copies))))
        && (r == Done(false) && !faulty && smooth && job0.action.Rollback? ==> !old(CanRollBack()))
      ensures r == Done(true) ==> loss == old(loss)
    {
      hide Journaled, Journal, Timeline, Follows, Armed, AllOrNothing, Agree, RollsBackTo, UpToDate, FromRelease, Available, NoCopies;
      var ok, job := true, job0;
      ghost var good := Admitted(job0) && !job0.restartRequired;
      ok, job :- Work(job0);
      ghost var worked := job;
      job := if !ok then job.(state := Failed)
             else if job.restartRequired then job.(state := Restarting, phase := PhaseRestarting)
             else job.(state := Succeeded, phase := PhaseComplete);
      if good && loss.None? { RanMaySave(worked, job); }
      r := SaveResult(job, ok);
    }

    /** A job that ran may be saved as its outcome. */
    lemma RanMaySave(job: Job, result: Job)
      requires loss.None? && Ran(job) && result == job.(state := result.state, phase := result.phase)
      requires if job.restartRequired then (result.state.Restarting? && RecoveryPhase(result.phase)) || !Pending(result) else !Pending(result)
      ensures MayJournal(result) && AllOrNothing(disk.files, binaries, pre, target)
    {
      hide Traced, Enrolled, Timeline, Journal, Agree, Restores, RollsBackTo;
      OwnedFollows(result);
    }

    /** The job itself: a rollback, or a release lookup and an update. */
    method Work(job0: Job) returns (r: Step<bool>, job: Job)
      modifies this`disk, this`status, this`hist, this`loss, this`target
      ensures Marks(job0.state)
      ensures Onward() && LostHere() && (r == Done(true) ==> loss == old(loss))
      ensures job == job0.(phase := job.phase, version := job.version, restartRequired := job.restartRequired)
      ensures job.restartRequired && job0.action.Apply? && !job0.restartRequired ==> !order.older(job.version, job.currentVersion)
      ensures r == Done(true) && job0.action.Apply? && !job.restartRequired ==> UpToDate(job.version)
      ensures r == Done(true) && job0.action.Rollback? ==> job.restartRequired
      ensures status.currentVersion == old(status).currentVersion
      ensures old(Admitted(job0)) && !job0.restartRequired ==>
        && Good() && (r.Done? ==> loss.Some? || Ran(job)) && (r == Done(false) ==> !job.restartRequired)
        && (r == Done(true) && job.restartRequired ==> if job0.action.Rollback? then RolledBackTo(job.id) else Updated(job.version, job.id))
        && (r == Done(false) && job0.action.Apply? ==> faulty || !smooth || Refusable(job, old(disk.copies)))
        && (r == Done(false) && job0.action.Rollback? ==> faulty || !smooth || !old(CanRollBack()))
    {
      hide Timeline, Traced, Enrolled, Journal, AllOrNothing, Armed, Agree, Updated, RolledBackTo, UpToDate, Refusable, CanRollBack;
      if job0.action.Rollback? {
        r, job := RollBack(job0);
      } else {
        r, job := Release(job0);
      }
    }

    /** A job whose recovery is armed and which the process and the disk agree on. */
    ghost predicate Ready()
      reads this
    {
      && loss.None? && Journaled()
      && status.job.Some? && Synced(status.job.value)
      && Pending(status.job.value) && RecoveryPhase(status.job.value.phase)
    }

    /** An update that succeeded had nothing to do. */
    ghost predicate Honest(j: Option<Job>)
      reads this`binaries
    {
      j.Some? && j.value.action.Apply? && j.value.state.Succeeded? ==> UpToDate(j.value.version)
    }

    /** An update to this version is a downgrade, there is no such release, or its backup directory exists. */
    ghost predicate Refusable(job: Job, copies: map<CopyPath, Image>)
      reads this`binaries
    {
      order.older(job.version, job.currentVersion) || !Available(job.version) || !NoCopies(copies, job.id)
    }

    /** The release lookup, then `apply`. The release tag and its order against the current version are inputs. */
    method Release(job0: Job) returns (r: Step<bool>, job: Job)
      modifies this`disk, this`status, this`hist, this`loss, this`target
      ensures Marks(job0.state)
      ensures Onward() && LostHere() && (r == Done(true) ==> loss == old(loss))
      ensures job == job0.(phase := job.phase, version := job.version, restartRequired := job.restartRequired)
      ensures job.restartRequired && job0.action.Apply? && !job0.restartRequired ==> !order.older(job.version, job.currentVersion)
      ensures r == Done(true) && job0.action.Apply? && !job.restartRequired ==> UpToDate(job.version)
      ensures status.currentVersion == old(status).currentVersion
      ensures old(Admitted(job0)) && !job0.action.Rollback? && !job0.restartRequired ==>
        && Good() && (r.Done? ==> loss.Some? || Ran(job)) && (r == Done(false) ==> !job.restartRequired)
        && (r == Done(true) && job.restartRequired ==> Updated(job.version, job.id))
        && (r == Done(false) ==> faulty || !smooth || (job0.action.Apply? && Refusable(job, old(disk.copies))))
    {
      hide Traced, Enrolled, Timeline, Journal, Armed, Restores, RollsBackTo, SameTargets, Distinct, EachOldOrNew, Agree, Updated, UpToDate, Available, NoCopies;
      var ok;
      job := job0;
      ok, job :- EnterPhase(job, CheckingRelease);
      if !ok { return Done(false), job; }
      var tag: Option<string> := *;
      if !tag.Some? && smooth { tag := Some(job.version); }
      if !tag.Some? { return Done(false), job; }
      r, job := Pursue(tag.value, job);
    }

    /** What is done about a release that was found. */
    method Pursue(tag: string, job0: Job) returns (r: Step<bool>, job: Job)
      requires !RecoveryPhase(job0.phase)
      modifies this`disk, this`status, this`hist, this`loss, this`target
      ensures Marks(job0.state)
      ensures Onward() && LostHere() && (r == Done(true) ==> loss == old(loss))
      ensures job == job0.(phase := job.phase, version := job.version, restartRequired := job.restartRequired)
      ensures job.restartRequired && job0.action.Apply? && !job0.restartRequired ==> !order.older(job.version, job.currentVersion)
      ensures job.version == tag
      ensures r == Done(true) && job0.action.Apply? && !job.restartRequired ==> UpToDate(job.version)
      ensures status.currentVersion == old(status).currentVersion
      ensures old(Admitted(job0)) && !job0.action.Rollback? && !job0.restartRequired ==>
        && Good() && (r.Done? ==> loss.Some? || Ran(job)) && (r == Done(false) ==> !job.restartRequired)
        && (r == Done(true) && job.restartRequired ==> Updated(job.version, job.id))
        && (r == Done(false) ==> faulty || !smooth || (job0.action.Apply? && Refusable(job, old(disk.copies))))
    {
      hide Traced, Enrolled, Timeline, Journal, Armed, Restores, RollsBackTo, SameTargets, Distinct, EachOldOrNew, Agree, Updated, UpToDate;
      ghost var good := Admitted(job0) && !job0.action.Rollback? && !job0.restartRequired;
      job := job0.(version := tag);
      if good { OwnedFollows(job); }
      var ok :- SaveJob(job);
      if !ok || (job.action.Apply? && order.older(tag, job.currentVersion)) { return Done(false), job; }
      if job.action.Apply? {
        r, job := Apply(tag, job);
      } else {
        return Done(true), job;
      }
    }

    /** The end of `run`: a result that cannot be saved turns into a failure. */
    method SaveResult(job: Job, ok: bool) returns (r: Step<bool>)
      modifies this`disk, this`status, this`hist, this`active
      ensures disk == old(disk).(records := disk.records, status := disk.status)
      ensures old(hist) <= hist
      ensures status.currentVersion == old(status).currentVersion
      ensures old(MayJournal(job) && AllOrNothing(disk.files, binaries, pre, target)) ==>
        && Journaled() && disk.files == old(disk).files
        && (r == Done(true) ==> Synced(job))
      ensures r.Done? && !faulty ==> status.job == Some(job) && r.value == (ok && job.restartRequired)
      ensures NewJob(status.job, old(status.job), job) && NewJob(DurableJob(disk), old(DurableJob(disk)), job)
      ensures r.Done? && (job.state.Restarting? <==> ok && job.restartRequired) ==> active == r.value
      ensures r == Done(true) ==> ok && job.restartRequired && status.job == Some(job)
    {
      hide Journal, Timeline, Follows, Advances, AllOrNothing, Armed, Agree, Traced, Enrolled;
      ghost var good := MayJournal(job) && AllOrNothing(disk.files, binaries, pre, target);
      var saved :- SaveJob(job);
      active := job.state.Restarting? && saved;
      if !saved {
        var _ :- SaveFailed(job);
      }
      r := Done(ok && saved && job.restartRequired);
    }

    method SaveFailed(job: Job) returns (r: Step<bool>)
      modifies this`disk, this`status, this`hist
      ensures disk == old(disk).(records := disk.records, status := disk.status)
      ensures r == Done(false) ==> faulty
      ensures status.job == old(status).job || status.job == Some(job.(state := Failed))
      ensures DurableJob(disk) == old(DurableJob(disk)) || DurableJob(disk) == Some(job.(state := Failed))
      ensures old(hist) <= hist && status.currentVersion == old(status).currentVersion
      ensures old(MayFail(job) && AllOrNothing(disk.files, binaries, pre, target)) ==> Journaled()
    {
      hide Journal, Follows, Advances, AllOrNothing, Armed, Agree, Traced, Enrolled;
      if MayFail(job) { FailureFollows(job); }
      r := SaveJob(job.(state := Failed));
    }

    // ----- called by the guardian -----

    /** The durable job is this one, whatever its state. */
    ghost predicate Names(j: Option<Job>)
      reads this`disk, this`status
    {
      && j.Some? && DurableJob(disk).Some? && DurableJob(disk).value.id == j.value.id
      && status.job.Some? && status.job.value.id == j.value.id
    }

    /** `HealthDeadline`. */
    method HealthDeadline(deadline: int) returns (r: Step<bool>)
      modifies this`disk, this`status, this`hist
      ensures old(hist) <= hist
      ensures r == Done(false) ==> faulty || old(status).job.None?
      ensures hist == old(hist) || (old(status).job.Some? && hist == old(hist) + [Some(Checked(old(status).job.value, deadline))])
      ensures r == Done(true) ==> hist != old(hist)
      ensures r == Done(true) ==>
        && old(status).job.Some?
        && status.job == Some(old(status).job.value.(state := Restarting, phase := HealthCheck, deadline := Some(deadline)))
      ensures old(Names(status.job)) ==> Names(old(status).job)
      ensures status.currentVersion == old(status).currentVersion && disk == old(disk).(records := disk.records, status := disk.status)
      ensures old(Ready()) && (old(status).job.value.deadline.Some? ==> deadline <= old(status).job.value.deadline.value) ==>
        && Journaled()
        && (r == Done(true) ==>
              && Ready() && status.job.value.id == old(status).job.value.id
              && status.job.value.action == old(status).job.value.action && status.job.value.deadline == Some(deadline))
    {
      hide Traced, Enrolled, Restores, RollsBackTo, SameTargets, Distinct, EachOldOrNew, Agree;
      if status.job.None? { return Done(false); }
      var j := status.job.value.(state := Restarting, phase := HealthCheck, deadline := Some(deadline));
      r := SaveJob(j);
    }

    /** `FinishSupervised`: the only place where the recorded version changes. */
    method FinishSupervised(version: string, rolledBack: bool, cause: bool) returns (r: Step<bool>)
      modifies this`disk, this`status, this`hist, this`binaries, this`active
      ensures old(hist) <= hist
      ensures old(Names(status.job)) ==> Names(old(status).job)
      ensures SameTargets(binaries, old(binaries)) && |binaries| == |old(binaries)|
      ensures disk == old(disk).(records := disk.records, status := disk.status)
      ensures r == Done(true) ==> old(status).job.Some? && status.job == Some(Concluded(old(status).job.value, rolledBack, cause))
      ensures r == Done(true) ==> !active
      ensures r == Done(false) ==> faulty || old(status).job.None?
      ensures status.currentVersion ==
        if old(status).job.Some? && (!cause || rolledBack) then version else old(status).currentVersion
      ensures old(Journaled() && AllOrNothing(disk.files, binaries, pre, target)
                  && Names(status.job)) ==>
        Journaled() && AllOrNothing(disk.files, binaries, pre, target) && (r == Done(true) ==> DurableJob(disk) == status.job)
    {
      hide Timeline, Journal, AllOrNothing, Advances, Stamped, SameTargets, Traced, Enrolled;
      TargetsReflexive(binaries);
      if status.job.None? { return Done(false); }
      ghost var good := Journaled() && AllOrNothing(disk.files, binaries, pre, target);
      var j := status.job.value.(deadline := None, state := Completed, phase := PhaseComplete);
      if rolledBack { j := j.(state := RolledBack, phase := PhaseRolledBack); }
      if cause && !rolledBack { j := j.(state := Failed, phase := PhaseFailed); }
      assert j == Concluded(status.job.value, rolledBack, cause);
      if !cause || rolledBack {
        status := status.(currentVersion := version);
        if good {
          VersionsDoNotMatter(disk, binaries, Stamped(binaries, version), pre, target);
          TracedVersions(disk.backup, disk.undo, DurableId(disk), binaries, Stamped(binaries, version), pre, target, began, first, releases);
        }
        binaries := Stamped(binaries, version);
      }
      r := Settle(j);
    }

    /** Saves a job that is over. */
    method Settle(j: Job) returns (r: Step<bool>)
      modifies this`disk, this`status, this`hist, this`active
      ensures old(hist) <= hist
      ensures status.currentVersion == old(status).currentVersion && disk == old(disk).(records := disk.records, status := disk.status)
      ensures r == Done(true) ==> status.job == Some(j)
      ensures r == Done(true) ==> !active
      ensures r == Done(false) ==> faulty
      ensures old(Names(Some(j))) ==> Names(Some(j))
      ensures !Pending(j) && old(Journaled() && AllOrNothing(disk.files, binaries, pre, target) && Names(Some(j))) ==>
        Journaled() && AllOrNothing(disk.files, binaries, pre, target) && (r == Done(true) ==> DurableJob(disk) == status.job)
    {
      hide Traced, Enrolled, Timeline, Journal, AllOrNothing, Advances, Follows;
      if !Pending(j) && Journaled() && Names(Some(j)) { SettledFollows(j); }
      var ok :- SaveJob(j);
      if ok { active := false; }
      r := Done(ok);
    }

    /** The backup is the update's own, and every binary has the hash it should have: the old one behind a rollback, else the new one. */
    ghost predicate Verified()
      reads this`disk, this`status
    {
      && status.job.Some? && disk.backup.Some?
      && (status.job.value.action.Apply? ==> disk.backup.value.id == status.job.value.id)
      && forall k :: 0 <= k < |disk.backup.value.entries| ==>
        var e := disk.backup.value.entries[k];
        e.binary.path in disk.files && Sha256(disk.files[e.binary.path]) == if status.job.value.action.Rollback? then e.before else e.after
    }

    /** A job that is to be recovered has a backup manifest. */
    lemma ReadyBackup()
      requires Ready()
      ensures disk.backup.Some? && |disk.backup.value.entries| == |binaries| > 0
    {
      hide Timeline, Traced, Enrolled, EachOldOrNew, Agree;
      assert |Binaries(disk.backup.value.entries)| == |binaries|;
    }

    /** An installed target passes every check. */
    lemma ReadyHashes()
      requires Ready() && Agree(disk.files, target, binaries)
      ensures disk.backup.Some? && |disk.backup.value.entries| == |binaries| > 0
      ensures !status.job.value.action.Rollback? ==> disk.backup.value.id == status.job.value.id
      ensures forall k :: 0 <= k < |binaries| ==>
        var e := disk.backup.value.entries[k];
        && Installed(e.binary.path).Some?
        && Sha256(Installed(e.binary.path).value) == if status.job.value.action.Rollback? then e.before else e.after
    {
      hide Timeline, Traced, Enrolled, EachOldOrNew;
      var m := disk.backup.value;
      assert forall k :: 0 <= k < |binaries| ==> Binaries(m.entries)[k] == m.entries[k].binary && m.entries[k].binary.path == binaries[k].path;
    }

    /** `VerifySupervised`: is every binary the one the job installs? */
    method VerifySupervised() returns (ok: bool)
      ensures ok ==> Verified()
      ensures ok && Ready() ==> Agree(disk.files, target, binaries)
      ensures !ok && Ready() && Agree(disk.files, target, binaries) ==> faulty || !Small(fits, |binaries|)
    {
      if Ready() && Agree(disk.files, target, binaries) { ReadyHashes(); }
      if status.job.None? { return false; }
      var failed := Fails();
      if failed || disk.backup.None? || !fits.manifest(disk.backup.value) { return false; }
      var job, manifest := status.job.value, disk.backup.value;
      if job.action.Apply? && manifest.id != job.id { return false; }
      for i := 0 to |manifest.entries|
        invariant forall k :: 0 <= k < i ==>
          && Installed(manifest.entries[k].binary.path).Some?
          && Sha256(Installed(manifest.entries[k].binary.path).value)
             == if job.action.Rollback? then manifest.entries[k].before else manifest.entries[k].after
      {
        var e := manifest.entries[i];
        var hash := FileHash(Installed(e.binary.path));
        if hash != Some(if job.action.Rollback? then e.before else e.after) { return false; }
      }
      ok := true;
      if Ready() {
        assert forall k :: 0 <= k < |binaries| ==> Binaries(manifest.entries)[k].path == binaries[k].path;
      }
    }

    /** The entry is of this binary, its backup is intact, and what is installed is what its job left or found. */
    ghost predicate Restores1(e: Entry, b: Binary)
      reads this`disk
    {
      && e.binary.path == b.path && e.binary.name == b.name
      && e.backup in disk.copies && e.before == Sha256(disk.copies[e.backup])
      && b.path in disk.files && (e.after == Sha256(disk.files[b.path]) || e.before == Sha256(disk.files[b.path]))
    }

    /** The manifest is the job's, and every entry of it can be put back. */
    ghost predicate Restorable(m: Manifest)
      reads this`disk, this`binaries, this`status
    {
      && status.job.Some? && m.id == status.job.value.id && |m.entries| == |binaries|
      && forall k :: 0 <= k < |binaries| ==> Restores1(m.entries[k], binaries[k])
    }

    /** The checks `RestoreSupervised` makes before it writes. An armed journal passes all of them. */
    method CheckRestore(manifest: Manifest) returns (ok: bool)
      ensures Ready() && RecoveryManifest(disk, status.job.value) == Some(manifest) && !ok ==> faulty
      ensures ok ==> Restorable(manifest)
    {
      ghost var good := Ready() && RecoveryManifest(disk, status.job.value) == Some(manifest);
      if good { assert forall k :: 0 <= k < |binaries| ==> Binaries(manifest.entries)[k] == manifest.entries[k].binary; }
      if status.job.None? || manifest.id != status.job.value.id { return false; }
      if |manifest.entries| != |binaries| { return false; }
      for i := 0 to |manifest.entries|
        invariant forall k :: 0 <= k < i ==> Restores1(manifest.entries[k], binaries[k])
      {
        var e := manifest.entries[i];
        if e.binary.path != binaries[i].path || e.binary.name != binaries[i].name { return false; }
        var backup := FileHash(Copy(e.backup));
        var installed := FileHash(Installed(e.binary.path));
        if backup != Some(e.before) || (installed != Some(e.after) && installed != Some(e.before)) { return false; }
      }
      ok := true;
    }

    /**
     `RestoreSupervised`. When it gives up, the binaries in `back` are old again; what is left is lost exactly when
     some changed binary is new and another is not.
     */
    method RestoreSupervised() returns (r: Step<Result<string>>, ghost back: set<nat>)
      modifies this`disk, this`status, this`hist, this`loss
      ensures disk == old(disk).(records := disk.records, status := disk.status, files := disk.files)
      ensures old(Names(status.job)) ==> Names(old(status).job)
      ensures Onward() && LostHere() && (r != Done(Err) ==> loss == old(loss))
      ensures old(status).job.Some? && disk.files != old(disk).files ==>
        && old(RecoveryManifest(disk, status.job.value)).Some? && old(Restorable(RecoveryManifest(disk, status.job.value).value))
      ensures status.currentVersion == old(status).currentVersion
      ensures old(Ready()) && !fits.manifest(old(RecoveryManifest(disk, status.job.value).value)) ==> r == Done(Err) && back == {}
      ensures old(Ready()) ==>
        && Good() && Journaled()
        && (r.Done? && r.value.Ok? ==> Ready() && Agree(disk.files, pre, binaries))
        && PutBackAt(old(disk).files, disk.files, binaries, pre, back) && Covers(target, binaries)
        && (r == Done(Err) ==> faulty || !Small(fits, |binaries|))
        && (r == Done(Err) ==> (loss.None? <==> AllOrNothing(disk.files, binaries, pre, target)))
        && (r == Done(Err) ==> (loss.None? <==> Clean(old(disk).files, binaries, pre, target, back)))
    {
      hide Traced, Enrolled, Timeline, Journal, AllOrNothing, Clean, PutBackAt, Agree, Small;
      ghost var good, d := Ready(), disk;
      if good { JournalEach(disk, binaries, pre, target); }
      r, back := TryRestore();
      if good {
        GivingUpExactly(d.files, disk.files, binaries, pre, target, back);
        JournaledOrderly();
      }
      if r == Done(Err) { GiveUp(); }
    }

    /** Checks everything, journals the phase, then puts every backup back. */
    method TryRestore() returns (r: Step<Result<string>>, ghost back: set<nat>)
      modifies this`disk, this`status, this`hist
      ensures disk == old(disk).(records := disk.records, status := disk.status, files := disk.files)
      ensures old(Names(status.job)) ==> Names(old(status).job)
      ensures old(hist) <= hist
      // nothing is written over a binary that is neither old nor new, or from a backup that is not intact
      ensures old(status).job.Some? && disk.files != old(disk).files ==>
        && old(RecoveryManifest(disk, status.job.value)).Some? && old(Restorable(RecoveryManifest(disk, status.job.value).value))
      ensures old(status).job.None? ==> disk == old(disk)
      ensures status.currentVersion == old(status).currentVersion
      ensures old(Ready()) && !fits.manifest(old(RecoveryManifest(disk, status.job.value).value)) ==> r == Done(Err) && back == {}
      ensures old(Ready()) ==>
        && Journaled() && PutBackAt(old(disk).files, disk.files, binaries, pre, back)
        && (r.Done? && r.value.Ok? ==> Ready() && Agree(disk.files, pre, binaries))
        && (r == Done(Err) ==> faulty || !Small(fits, |binaries|))
    {
      hide Traced, Enrolled, Timeline, Follows, Journal, Armed, Agree, AllOrNothing, EachOldOrNew, PutBackAt, Small;
      back := {};
      if status.job.None? { return Done(Err), back; }
      ghost var good, d := Ready(), disk;
      if good {
        JournalEach(disk, binaries, pre, target);
        UntouchedAt(disk.files);
        ReadyToReturn();
      }
      var failed := Fails();
      var source := if status.job.value.action.Rollback? then disk.undo else disk.backup;
      if failed || source.None? || !fits.manifest(source.value) { return Done(Err), back; }
      var manifest := source.value;
      var checked := CheckRestore(manifest);
      if !checked { return Done(Err), back; }
      var j := status.job.value.(state := Restarting, phase := RollingBack);
      var ok :- SaveJob(j);
      if !ok { return Done(Err), back; }
      r, back := PutAllBack(manifest);
    }

    /** A job whose recovery is armed may be journaled as rolling back; its manifest fits where every manifest fits. */
    lemma ReadyToReturn()
      requires Ready()
      ensures MayJournal(status.job.value.(state := Restarting, phase := RollingBack))
      ensures RecoveryManifest(disk, status.job.value).Some?
      ensures !fits.manifest(RecoveryManifest(disk, status.job.value).value) ==> !Small(fits, |binaries|)
    {
      hide Timeline, Follows, Traced, Enrolled, EachOldOrNew, Agree, AllOrNothing, Distinct;
      OwnedFollows(status.job.value.(state := Restarting, phase := RollingBack));
      var m := RecoveryManifest(disk, status.job.value).value;
      assert |m.entries| == |Binaries(m.entries)| == |binaries|;
    }

    lemma UntouchedAt(files: map<string, Image>)
      requires EachOldOrNew(files, binaries, pre, target)
      ensures PutBackAt(files, files, binaries, pre, {})
    {
    }

    /** The restoring loop: forwards, giving up at the first failure. */
    method PutAllBack(manifest: Manifest) returns (r: Step<Result<string>>, ghost back: set<nat>)
      modifies this`disk
      ensures disk == old(disk).(files := disk.files)
      ensures old(Ready()) && old(RecoveryManifest(disk, status.job.value)) == Some(manifest) ==>
        && Ready() && PutBackAt(old(disk).files, disk.files, binaries, pre, back)
        && (r.Done? && r.value.Ok? ==> Agree(disk.files, pre, binaries))
        && (r == Done(Err) ==> faulty)
    {
      hide Traced, Enrolled, Timeline;
      ghost var good := Ready() && RecoveryManifest(disk, status.job.value) == Some(manifest);
      ghost var d0 := disk;
      back := {};
      if good {
        RestorableBy(manifest.entries, |manifest.entries|);
        UntouchedAt(disk.files);
      }
      for i := 0 to |manifest.entries|
        invariant disk == d0.(files := disk.files)
        invariant good ==> Ready() && CoveredBy(manifest.entries) && CanPutBack(manifest.entries, disk)
        invariant good ==> |manifest.entries| == |binaries| && forall k: nat :: k in back <==> k < i
        invariant good ==> PutBackAt(d0.files, disk.files, binaries, pre, back)
      {
        ghost var d := disk;
        var e := manifest.entries[i];
        var w := ReplaceFile(Copy(e.backup), e.binary.path);
        if good { PutOneBack(d0, d, manifest.entries, i, back); }
        if good && disk != d { back := back + {i}; }
        if w.Crashed? { return Crashed, back; }
        if !w.value { return Done(Err), back; }
        back := back + {i};
      }
      r := Done(if |manifest.entries| == 0 then Err else Ok(manifest.entries[0].binary.version));
    }

    lemma PutOneBack(d0: Disk, d: Disk, entries: seq<Entry>, n: nat, back: set<nat>)
      requires Journal(d, binaries, pre, target) && CoveredBy(entries) && n < |entries| == |binaries|
      requires CanPutBack(entries, d) && PutBackAt(d0.files, d.files, binaries, pre, back)
      requires disk == d || disk == d.(files := d.files[entries[n].binary.path := d.copies[entries[n].backup]])
      ensures Journal(disk, binaries, pre, target) && CanPutBack(entries, disk)
      ensures disk != d ==> PutBackAt(d0.files, disk.files, binaries, pre, back + {n})
      ensures disk == d.(files := d.files[entries[n].binary.path := d.copies[entries[n].backup]]) ==> PutBackAt(d0.files, disk.files, binaries, pre, back + {n})
    {
      hide Journal, EachOldOrNew, PutBackAt, Distinct;
      JournalDistinct(d, binaries, pre, target);
      JournalEach(d, binaries, pre, target);
      EntryRestores(d, entries, n);
      OneMoreBack(d0.files, d.files, binaries, pre, target, n, back);
      ReplacingKeepsJournal(d, disk, binaries, pre, target);
    }

    /** The entry recovery uses for a binary holds what was installed when the job began. */
    lemma EntryRestores(d: Disk, entries: seq<Entry>, n: nat)
      requires Journal(d, binaries, pre, target) && CoveredBy(entries) && disk == d.(files := disk.files) && n < |entries| == |binaries|
      ensures entries[n].binary.path == binaries[n].path && binaries[n].path in pre && entries[n].backup in d.copies
      ensures d.copies[entries[n].backup] == pre[binaries[n].path]
    {
      hide EachOldOrNew, Agree, Distinct;
      var m := RecoveryManifest(d, DurableJob(d).value).value;
      assert Binaries(m.entries)[n].path == binaries[n].path;
    }

    /** The tail of `run` when the restart fails and nothing has settled the job. */
    method RestartFailed(job: Job) returns (r: Step<()>)
      modifies this`disk, this`status, this`hist, this`active
      ensures disk == old(disk).(records := disk.records, status := disk.status)
      ensures old(hist) <= hist
      ensures status.currentVersion == old(status).currentVersion
      ensures old(Idle() && DurableJob(disk).Some? && DurableJob(disk).value.id == job.id) ==> Idle()
    {
      if status.job.Some? && !status.job.value.state.Restarting? { return Done(()); }
      active := false;
      var _ :- SaveJob(job.(state := Failed));
      r := Done(());
    }
  }

  lemma AgreeCovers(files: map<string, Image>, pre: map<string, Image>, bs: seq<Binary>)
    requires Agree(files, pre, bs)
    ensures Covers(files, bs)
  {
  }

  lemma TargetsReflexive(bs: seq<Binary>)
    ensures SameTargets(bs, bs)
  {
  }

  function Stamped(bs: seq<Binary>, version: string): (r: seq<Binary>)
    ensures SameTargets(r, bs) && |r| == |bs|
    ensures forall i :: 0 <= i < |r| ==> r[i].version == version
  {
    seq(|bs|, i requires 0 <= i < |bs| => bs[i].(version := version))
  }
}
