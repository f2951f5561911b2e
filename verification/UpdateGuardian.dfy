/**
 The guardian owns the serving child: it restarts the child after an update under a health check and
 restores the previous binaries when that check fails. It may itself die at any durable step and be started again.
 */
module UpdateGuardian {
  import opened Basics
  import opened UpdateJournal
  import opened UpdateService

  const HEALTH_SECONDS: int := 60

  /** A version the service recorded, the version the child had passed its health check for, and whether that child was live. */
  datatype Recorded = Recorded(version: string, passed: Option<string>, live: bool)

  /** Behind the first, which the build brings along, every recorded version was proven by a live child. */
  predicate Proven(rs: seq<Recorded>) {
    rs != [] && forall i :: 0 < i < |rs| ==> rs[i].live && rs[i].passed == Some(rs[i].version)
  }

  class Guardian {
    const service: Service
    /** The child the guardian believes it owns, and the version of its binary. */
    var child: Option<nat>
    var version: string
    /** The processes that are alive, and how many were ever launched. */
    var alive: set<nat>
    var launched: nat
    /** The version the present child has just passed its health check for. */
    ghost var passed: Option<string>
    /** The versions recorded so far, and the most children that were ever live at once. */
    ghost var recorded: seq<Recorded>
    ghost var peak: nat

    constructor (service: Service)
      ensures this.service == service && version == service.status.currentVersion
      ensures child.None? && OneChild() && Versions()
    {
      this.service, version := service, service.status.currentVersion;
      child, alive, launched, passed := None, {}, 0, None;
      recorded, peak := [Recorded(service.status.currentVersion, None, false)], 0;
    }

    /** Only the owned child can be alive, and there was never more than one. */
    ghost predicate OneChild()
      reads this
    {
      && peak <= 1
      && alive <= (if child.Some? then {child.value} else {})
      && (forall c :: c in alive ==> c < launched)
    }

    /** The recorded versions are proven, and the last of them is in force. */
    ghost predicate Versions()
      reads this, service
    {
      Proven(recorded) && recorded[|recorded| - 1].version == service.status.currentVersion
    }

    /** A live child has passed its health check for `v`. */
    ghost predicate Serving(v: string)
      reads this
    {
      child.Some? && child.value in alive && passed == Some(v)
    }

    method Launch() returns (ok: bool)
      modifies this`child, this`alive, this`launched, this`passed, this`peak
      ensures old(alive == {} && OneChild()) ==> OneChild()
      ensures service.smooth ==> ok
      ensures ok ==> child == Some(old(launched)) && alive == old(alive) + {old(launched)} && launched == old(launched) + 1
      ensures ok ==> peak == if |alive| > old(peak) then |alive| else old(peak)
      ensures !ok ==> child.None? && alive == old(alive) && launched == old(launched) && peak == old(peak)
    {
      passed := None;
      ok := *;
      ok := ok || service.smooth;
      if ok {
        child, alive, launched := Some(launched), alive + {launched}, launched + 1;
        if |alive| > peak { peak := |alive|; }
        assert old(alive) == {} ==> alive == {child.value};
      } else {
        child := None;
      }
    }

    method Healthy(v: string) returns (ok: bool)
      modifies this`passed
      ensures ok ==> passed == Some(v)
      ensures service.smooth ==> ok
    {
      ok := *;
      ok := ok || service.smooth;
      if ok { passed := Some(v); }
    }

    method Stop() returns (ok: bool)
      modifies this`alive
      ensures service.smooth ==> ok
      ensures ok && child.Some? ==> alive == old(alive) - {child.value}
      ensures !ok || child.None? ==> alive == old(alive)
    {
      ok := *;
      ok := ok || service.smooth;
      if ok && child.Some? { alive := alive - {child.value}; }
    }

    /** `finish`. */
    method Finish(v: string, rolledBack: bool, cause: bool) returns (r: Step<bool>)
      modifies this`version, this`recorded, service
      ensures service.SameSpan() && service.disk.files == old(service.disk).files
      ensures recorded == if old(service.status).job.Some? && (!cause || rolledBack)
                          then old(recorded) + [Recorded(v, passed, child.Some? && child.value in alive)] else old(recorded)
      ensures old(service.Names(service.status.job)) ==> service.Names(old(service.status).job)
      ensures version == old(version) || version == v
      ensures SameTargets(service.binaries, old(service.binaries))
      ensures old(Versions()) && (!cause || rolledBack ==> Serving(v)) ==> Versions()
      ensures r == Done(true) ==> old(service.status).job.Some? && service.status.job == Some(Concluded(old(service.status).job.value, rolledBack, cause))
      ensures r == Done(true) ==> version == v && (!cause || rolledBack ==> service.status.currentVersion == v)
      ensures r == Done(true) ==> !service.active
      ensures r == Done(false) ==> service.faulty || old(service.status).job.None?
      ensures service.loss == old(service.loss) && service.Onward()
      ensures old(service.Idle() && service.Names(service.status.job)) ==>
        service.Idle() && (r == Done(true) ==> DurableJob(service.disk) == service.status.job)
    {
      hide Service.Journaled, Journal, Timeline, AllOrNothing, SameTargets;
      var job := service.status.job;
      var done := service.FinishSupervised(v, rolledBack, cause);
      if job.Some? && (!cause || rolledBack) {
        recorded := recorded + [Recorded(v, passed, child.Some? && child.value in alive)];
      }
      if done.Crashed? { return Crashed; }
      if !done.value { return Done(false); }
      version := v;
      r := Done(true);
    }

    /** The version a job leads to: a rollback's is named by the backup it installs. */
    function Promised(job: Job): Option<string>
      reads service`disk
    {
      if !job.action.Rollback? then Some(job.version)
      else if service.disk.backup.None? || |service.disk.backup.value.entries| == 0 then None
      else Some(service.disk.backup.value.entries[0].binary.version)
    }

    /** The version `recover` expects. */
    method Expected(job: Job) returns (v: Option<string>)
      ensures v.Some? ==> v == Promised(job)
      ensures v.None? ==> Promised(job).None? || service.faulty || (service.disk.backup.Some? && !service.fits.manifest(service.disk.backup.value))
    {
      if !job.action.Rollback? { return Some(job.version); }
      var failed := service.Fails();
      if failed || service.disk.backup.None? || !service.fits.manifest(service.disk.backup.value) { return None; }
      if |service.disk.backup.value.entries| == 0 { return None; }
      v := Some(service.disk.backup.value.entries[0].binary.version);
    }

    /** No read or write fails, every journal file can be read back, and nothing outside refuses. */
    ghost predicate Undisturbed()
      reads service`binaries
    {
      !service.faulty && service.smooth && Small(service.fits, |service.binaries|)
    }

    /** Launches the installed binary and checks its health, but only if every file is the job's target. */
    method TryCandidate(v: string) returns (ok: bool)
      modifies this`child, this`alive, this`launched, this`passed, this`peak
      ensures old(alive == {} && OneChild()) ==> OneChild()
      ensures ok ==> Serving(v)
      ensures Undisturbed() && service.Ready() && Agree(service.disk.files, service.target, service.binaries) ==> ok
      ensures old(child).None? && child.Some? && service.Ready() ==>
        Agree(service.disk.files, service.target, service.binaries)
    {
      hide Service.Journaled, Journal, Timeline, Agree;
      ok := service.VerifySupervised();
      if ok { ok := Launch(); }
      if ok { ok := Healthy(v); }
    }

    /** Stops the owned child, if any. */
    method StopChild() returns (ok: bool)
      modifies this`alive, this`child
      ensures ok ==> child.None?
      ensures service.smooth ==> ok
      ensures !ok ==> child.Some? && child == old(child)
      ensures old(OneChild()) ==> OneChild() && (ok ==> alive == {})
    {
      ok := true;
      if child.Some? {
        ok := Stop();
        if ok { child := None; }
      }
    }

    /** `recover`: settles a job whose binaries may be old, new or mixed. */
    method Recover(job: Job, now: int) returns (r: Step<Result<()>>)
      modifies this, service
      ensures service.SameSpan() && service.LostHere() && old(recorded) <= recorded
      ensures old(service.Names(service.status.job)) ==> service.Names(old(service.status).job)
      ensures service.Onward()
      ensures old(OneChild()) ==> OneChild()
      // the first thing it makes durable is a deadline of a minute from now, or the earlier one the job has
      ensures old(service.status).job == Some(job) && service.hist != old(service.hist) ==>
        && |service.hist| > |old(service.hist)|
        && service.hist[|old(service.hist)|] == Some(Checked(job, if job.deadline.Some? && job.deadline.value < now + 60 then job.deadline.value else now + 60))
      ensures old(Versions()) ==> Versions()
      ensures SameTargets(service.binaries, old(service.binaries))
      // it succeeds when nothing goes wrong
      ensures old(service.Ready() && service.status.job == Some(job) && Undisturbed()) && r.Done? ==> r == Done(Ok(()))
      // an update that is installed is not rolled back when nothing goes wrong
      ensures old(service.Ready() && service.status.job == Some(job)) && old(Undisturbed() && Agree(service.disk.files, service.target, service.binaries)) && r.Done? ==>
        && r == Done(Ok(())) && service.status.job == Some(Concluded(old(service.status).job.value, false, false)) && !service.active
        && service.disk.files == old(service.disk).files && Some(service.status.currentVersion) == old(Promised(service.status.job.value))
      ensures old(service.Ready()) && old(service.status).job == Some(job) ==>
        && service.Good()
        && (r == Done(Ok(())) ==> service.Idle() && Settled())
        && (old(AllOrNothing(service.disk.files, service.binaries, service.pre, service.target)) && r.Done?
            ==> service.loss.Some? || service.Idle())
    {
      hide Proven, Service.Journaled, Journal, Timeline, Armed, Agree, Advances, Real, Small, SameTargets;
      TargetsReflexive(service.binaries);
      var deadline := now + HEALTH_SECONDS;
      if job.deadline.Some? && job.deadline.value < deadline { deadline := job.deadline.value; }
      var ok :- service.HealthDeadline(deadline);
      if !ok { return Done(Err); }
      var stopped := StopChild();
      if !stopped { return Done(Err); }
      r := TryOrFallBack(job);
    }

    /** `recover` from where no child is left: serve the job's target if that is what is installed, else fall back. */
    method TryOrFallBack(job: Job) returns (r: Step<Result<()>>)
      modifies this, service
      ensures service.SameSpan() && service.LostHere() && old(recorded) <= recorded
      ensures old(service.Names(service.status.job)) ==> service.Names(old(service.status).job)
      ensures service.Onward()
      ensures old(OneChild() && alive == {}) ==> OneChild()
      ensures old(Versions()) ==> Versions()
      ensures SameTargets(service.binaries, old(service.binaries))
      ensures old(service.Ready() && child.None? && Promised(service.status.job.value) == Promised(job) && Undisturbed()) && r.Done? ==> r == Done(Ok(()))
      // an update that is installed is not rolled back when nothing goes wrong
      ensures old(service.Ready() && child.None? && Promised(service.status.job.value) == Promised(job)) && old(Undisturbed() && Agree(service.disk.files, service.target, service.binaries)) && r.Done? ==>
        && r == Done(Ok(())) && service.status.job == Some(Concluded(old(service.status).job.value, false, false)) && !service.active
        && service.disk.files == old(service.disk).files && Some(service.status.currentVersion) == old(Promised(service.status.job.value))
      ensures old(service.Ready() && child.None?) ==>
        && service.Good()
        && (r == Done(Ok(())) ==> service.Idle() && Settled())
        && (old(AllOrNothing(service.disk.files, service.binaries, service.pre, service.target)) && r.Done?
            ==> service.loss.Some? || service.Idle())
    {
      hide Proven, Service.Journaled, Journal, Timeline, Armed, Agree, Advances, Real, Small, SameTargets;
      TargetsReflexive(service.binaries);
      if service.Ready() && Undisturbed() {
        service.ReadyBackup();
        SmallFits(service.fits, |service.binaries|, service.disk.backup.value);
      }
      var expected := Expected(job);
      if expected.None? { return Done(Err); }
      var good := TryCandidate(expected.value);
      if good {
        var ok :- Finish(expected.value, false, false);
        return Done(if ok then Ok(()) else Err);
      }
      r := FallBack();
    }

    ghost predicate Settled()
      reads this, service
    {
      service.status.job.Some? && !Pending(service.status.job.value) && DurableJob(service.disk) == service.status.job
    }

    /** The second half of `recover`: stop the failed child, restore, and check the restored one. */
    method FallBack() returns (r: Step<Result<()>>)
      modifies this, service
      ensures service.SameSpan() && service.LostHere() && old(recorded) <= recorded
      ensures old(service.Names(service.status.job)) ==> service.Names(old(service.status).job)
      ensures service.Onward()
      ensures old(OneChild()) ==> OneChild()
      ensures old(Versions()) ==> Versions()
      ensures SameTargets(service.binaries, old(service.binaries))
      ensures old(service.Ready() && (child.Some? ==> service.Idle())) ==>
        && service.Good()
        && (r == Done(Ok(())) ==> service.Idle() && Settled())
        && (r.Done? ==> service.loss.Some? || service.Idle())
      // a failed update is rolled back when nothing else goes wrong
      ensures old(service.Ready() && Undisturbed()) && r.Done? ==>
        && r == Done(Ok(())) && service.status.job.Some? && service.status.job.value.state.RolledBack?
        && Agree(service.disk.files, service.pre, old(service.binaries))
    {
      hide Proven, Service.Journaled, Journal, Timeline, Armed, Agree, Advances, AllOrNothing, Real, Small, Clean, PutBackAt, SameTargets, Covers;
      var ok;
      ghost var back: set<nat>;
      var previous: Result<string>;
      TargetsReflexive(service.binaries);
      var stopped := StopChild();
      if !stopped {
        ok :- Finish(version, false, true);
        return Done(Err);
      }
      previous, back :- service.RestoreSupervised();
      if previous.Err? {
        ok :- Finish(version, false, true);
        return Done(Err);
      }
      if service.Ready() && Agree(service.disk.files, service.pre, service.binaries) {
        AgreeingIsAll(service.disk.files, service.binaries, service.pre, service.target);
      }
      r := ServeRestored(previous.value);
    }

    /** The restored binaries are launched and must be healthy, too. */
    method ServeRestored(previous: string) returns (r: Step<Result<()>>)
      modifies this, service
      ensures service.SameSpan() && service.LostHere() && old(recorded) <= recorded
      ensures service.smooth && !service.faulty && old(service.status).job.Some? && r.Done? ==>
        r == Done(Ok(())) && service.status.job.Some? && service.status.job.value.state.RolledBack?
      ensures service.disk.files == old(service.disk).files
      ensures old(service.Names(service.status.job)) ==> service.Names(old(service.status).job)
      ensures service.Onward() && service.loss == old(service.loss)
      ensures old(alive == {} && OneChild()) ==> OneChild()
      ensures old(Versions()) ==> Versions()
      ensures SameTargets(service.binaries, old(service.binaries))
      ensures old(service.Idle() && service.Names(service.status.job)) ==>
        service.Idle() && (r == Done(Ok(())) ==> Settled())
    {
      hide Proven, Service.Journaled, Journal, Timeline, AllOrNothing, SameTargets;
      TargetsReflexive(service.binaries);
      var ok;
      var up := Launch();
      if up { up := Healthy(previous); }
      if !up {
        ok :- Finish(version, false, true);
        return Done(Err);
      }
      ok :- Finish(previous, true, true);
      r := Done(if ok then Ok(()) else Err);
    }

    /** `Start`: the first thing a guardian process does. */
    method Start(now: int) returns (r: Step<Result<()>>)
      modifies this, service
      ensures service.SameSpan() && service.LostHere() && old(recorded) <= recorded
      ensures service.Onward()
      ensures old(child.None? && OneChild()) ==> OneChild()
      ensures old(Versions()) ==> Versions()
      ensures SameTargets(service.binaries, old(service.binaries))
      ensures old(child.None? && service.Good() && service.Opened()) ==>
        && service.Good()
        && (r == Done(Ok(())) ==> service.loss.Some? || service.Idle())
      // it succeeds when nothing goes wrong
      ensures old(child.None? && service.Good() && service.Opened() && service.loss.None? && Undisturbed()) && r.Done? ==> r == Done(Ok(()))
    {
      hide Proven, Service.Journaled, Journal, Timeline, Armed, Agree, AllOrNothing, Real, Small, SameTargets;
      TargetsReflexive(service.binaries);
      var job := service.status.job;
      if service.loss.None? && service.Good() && service.Opened() && !(job.Some? && Pending(job.value) && RecoveryPhase(job.value.phase)) { service.OpenedIdle(); }
      if job.Some? && Pending(job.value) {
        if RecoveryPhase(job.value.phase) {
          r := Recover(job.value, now);
          return;
        }
        var ok :- Abandon();
        if !ok { return Done(Err); }
      }
      var up := TryInstalled();
      r := Done(if up then Ok(()) else Err);
    }

    /** A job that had not touched a binary is settled as failed. */
    method Abandon() returns (r: Step<bool>)
      modifies service
      ensures service.SameSpan() && service.loss == old(service.loss) && service.Onward()
      ensures old(Versions()) ==> Versions()
      ensures r == Done(false) ==> service.faulty || old(service.status).job.None?
      ensures SameTargets(service.binaries, old(service.binaries))
      ensures old(service.Idle() && service.Names(service.status.job)) ==> service.Idle()
    {
      hide Proven, Service.Journaled, Journal, Timeline, AllOrNothing, SameTargets;
      r := service.FinishSupervised(version, false, true);
    }

    method TryInstalled() returns (ok: bool)
      modifies this`child, this`alive, this`launched, this`passed, this`peak
      ensures old(alive == {} && OneChild()) ==> OneChild()
      ensures ok ==> Serving(version)
      ensures service.smooth ==> ok
    {
      ok := Launch();
      if ok { ok := Healthy(version); }
    }

    /** `restart`, called by a finished job: recovery in place; a failure stops the child. */
    method Restart(now: int) returns (r: Step<bool>)
      modifies this, service
      ensures service.SameSpan() && service.LostHere() && old(recorded) <= recorded
      ensures old(Versions()) ==> Versions()
      ensures old(service.Names(service.status.job)) ==> service.Names(old(service.status).job)
      ensures service.Onward()
      ensures old(OneChild()) ==> OneChild()
      ensures SameTargets(service.binaries, old(service.binaries))
      ensures old(service.Ready() && Undisturbed() && Agree(service.disk.files, service.target, service.binaries)) && r.Done? ==>
        && r == Done(true) && service.status.job == Some(Concluded(old(service.status).job.value, false, false)) && !service.active
        && service.disk.files == old(service.disk).files && Some(service.status.currentVersion) == old(Promised(service.status.job.value))
      ensures old(service.Ready() && service.Idle()) ==>
        && service.Good()
        && (r.Done? ==> service.loss.Some? || service.Idle())
    {
      if service.status.job.None? { return Done(false); }
      var done :- Recover(service.status.job.value, now);
      if done.Err? && child.Some? { var _ := Stop(); }
      r := Done(done.Ok?);
    }

    /** One admitted job from its first phase to its settled result (`run` with the guardian's restart hook). */
    method Serve(action: Action, wanted: string, id: string, now: int) returns (r: Step<()>)
      requires id !in service.disk.records
      modifies this, service
      ensures service.LostHere() && old(recorded) <= recorded
      ensures service.began == old(service.began) || service.began == old(service.began) + [Began(Some(id), old(service.disk).files)]
      ensures service.began == old(service.began) ==> service.pre == old(service.pre)
      ensures service.began != old(service.began) ==> service.pre == old(service.disk).files
      ensures old(Versions()) ==> Versions()
      ensures service.Onward()
      ensures old(OneChild()) ==> OneChild()
      ensures SameTargets(service.binaries, old(service.binaries))
      ensures old(service.Idle()) ==>
        && service.Good()
        && (r.Done? ==> service.loss.Some? || service.Idle())
      // when nothing goes wrong, an update that is asked for is made, unless there is nothing to do or nothing to be had
      ensures old(service.Idle() && Undisturbed() && !service.Busy() && !service.Downgrades(action, wanted)) && action.Apply? && r.Done? ==>
        Made(id, old(service.disk.copies))
    {
      hide Proven, Service.Journaled, Journal, Timeline, Armed, Agree, AllOrNothing, SameTargets;
      TargetsReflexive(service.binaries);
      var admitted :- service.Admit(action, wanted, id);
      if admitted.None? { return Done(()); }
      r := Carry(admitted.value, now);
    }

    /** An admitted job, up to its settled result. */
    method Carry(job0: Job, now: int) returns (r: Step<()>)
      modifies this, service
      ensures service.LostHere() && old(recorded) <= recorded
      ensures service.began == old(service.began) && service.pre == old(service.pre)
      ensures old(Versions()) ==> Versions()
      ensures service.Onward()
      ensures old(OneChild()) ==> OneChild()
      ensures SameTargets(service.binaries, old(service.binaries))
      ensures old(service.Admitted(job0)) && !job0.restartRequired ==>
        && service.Good()
        && (r.Done? ==> service.loss.Some? || service.Idle())
      ensures old(service.Admitted(job0) && service.Synced(job0) && Undisturbed()) && Fresh(job0) && r.Done? ==> Made(job0.id, old(service.disk.copies))
    {
      hide Proven, Service.Journaled, Journal, Timeline, Armed, Agree, AllOrNothing, SameTargets, FromRelease, Service.UpToDate, Service.Refusable;
      TargetsReflexive(service.binaries);
      var restart :- service.Run(job0);
      ghost var job := service.status.job;
      if restart {
        ghost var was := service.binaries;
        r := RestartOrFail(now);
        if r.Done? && job.Some? { StillUpdated(was, service.binaries, service.disk.files, service.releases, job.value.version); }
        return;
      }
      r := Done(());
    }

    /** An update that has only just been admitted. */
    predicate Fresh(j: Job) {
      j.action.Apply? && j.state.Running? && !j.restartRequired
    }

    /** The next job can be admitted, and the update has been made and proven, or every binary had its version, or it could not be made. */
    ghost predicate Made(id: string, copies: map<CopyPath, Image>)
      reads service
    {
      && service.status.job.Some? && service.status.job.value.id == id && !service.Busy()
      && var j := service.status.job.value;
      || (j.state.Completed? && service.status.currentVersion == j.version
          && exists release :: release in service.releases && release.tag == j.version && FromRelease(service.disk.files, service.binaries, release))
      || (j.state.Succeeded? && service.UpToDate(j.version))
      || service.Refusable(j, copies)
    }

    /** The restart hook at the end of `run`; a failure it did not settle is recorded. */
    method RestartOrFail(now: int) returns (r: Step<()>)
      modifies this, service
      ensures service.SameSpan() && service.LostHere() && old(recorded) <= recorded
      ensures old(Versions()) ==> Versions()
      ensures service.Onward()
      ensures old(OneChild()) ==> OneChild()
      ensures SameTargets(service.binaries, old(service.binaries))
      ensures old(service.Ready() && Undisturbed() && Agree(service.disk.files, service.target, service.binaries)) && r.Done? ==>
        && service.status.job == Some(Concluded(old(service.status).job.value, false, false)) && !service.active
        && service.disk.files == old(service.disk).files && Some(service.status.currentVersion) == old(Promised(service.status.job.value))
      ensures old(service.Ready() && service.Idle()) ==>
        && service.Good()
        && (r.Done? ==> service.loss.Some? || service.Idle())
    {
      hide Proven, Service.Journaled, Journal, Timeline, Armed, Agree, AllOrNothing, SameTargets;
      var job := service.status.job;
      var ok :- Restart(now);
      if !ok && job.Some? {
        r := service.RestartFailed(job.value);
        return;
      }
      r := Done(());
    }
  }

  /** At a start: the place of the newest job among the jobs that began, what it installs, and the durable jobs up to then. */
  datatype Span = Span(start: nat, target: map<string, Image>, hist: seq<Option<Job>>)

  /** The binaries are all as they were when the durable job began, or all what it installs. */
  predicate Spanned(boot: Disk, bs: seq<Binary>, span: Span, began: seq<Began>) {
    && span.start < |began| && began[span.start].id == DurableId(boot)
    && AllOrNothing(boot.files, bs, began[span.start].files, span.target)
  }

  /** No binary was mixed with those of another installation, whichever way one looks at it. */
  predicate Sound(boot: Disk, bs: seq<Binary>, first: map<string, Image>, releases: set<Release>) {
    Coherent(boot.files, bs, first, releases) && Whole(boot, bs)
  }

  /**
   Everything that can happen to an installation: guardian processes start one after another, each
   serves some jobs, and each may die at any durable step. `boots` are the disks of the successful starts; `began` are the
   jobs that became durable; `pre` and `target` are the installation when the newest job began and the one it installs.
   */
  method Lifetime(binaries: seq<Binary>, files: map<string, Image>, releases: set<Release>, processes: nat, faulty: bool, fits: Codec, order: Order, smooth: bool)
    returns (disk: Disk, boots: seq<Disk>, ghost spans: seq<Span>, ghost safe: nat,
             ghost pre: map<string, Image>, ghost target: map<string, Image>, ghost hist: seq<Option<Job>>, ghost began: seq<Began>,
             ghost loss: Option<Loss>, ghost versions: seq<seq<Recorded>>, ghost peak: nat)
    requires |binaries| > 0 && Distinct(binaries) && Covers(files, binaries)
    // however often processes die: whatever is started is the first installation or one release, and what its journal says
    ensures !faulty && Small(fits, |binaries|) ==> forall k :: 0 <= k < |boots| ==> Sound(boots[k], binaries, files, releases)
    // when reads and writes may fail, this holds of every start before the first loss, and a loss is a mix
    ensures loss.Some? ==> (faulty || !Small(fits, |binaries|)) && Real(loss.value)
    ensures safe <= |boots| == |spans| && (safe < |boots| ==> loss.Some? && loss.value.hist <= spans[safe].hist)
    ensures forall k :: 0 <= k < safe ==> Sound(boots[k], binaries, files, releases)
    // and all binaries are then as they were when the durable job began, or all are what it installs
    ensures forall k :: 0 <= k < safe ==> Spanned(boots[k], binaries, spans[k], began)
    ensures |began| > 0 && began[0] == Began(None, files)
    // the deadlines of a job only ever moved earlier before a loss
    ensures if loss.None? then Orderly(hist) else loss.value.hist <= hist && Orderly(loss.value.hist)
    // the durable state, wherever the last process died: a changed binary means that recovery is asked for and armed
    ensures loss.None? ==> Journal(disk, binaries, pre, target) && began[|began| - 1] == Began(DurableId(disk), pre)
    ensures loss.None? && !Agree(disk.files, pre, binaries) && DurableJob(disk).Some? && Pending(DurableJob(disk).value) ==>
      RecoveryPhase(DurableJob(disk).value.phase) && Armed(DurableJob(disk).value, disk, binaries, pre, target)
    ensures loss.None? && !AllOrNothing(disk.files, binaries, pre, target) ==> DurableJob(disk).Some? && Pending(DurableJob(disk).value)
    // no guardian ever had two live children, and each recorded only versions a live child had proven
    ensures peak <= 1 && |versions| == processes && forall p :: 0 <= p < |versions| ==> Proven(versions[p])
  {
    hide Journal, Timeline, AllOrNothing, Small, Agree, Armed, Proven, Sound, Spanned, Traced, Enrolled;
    disk := Disk(None, map[], None, None, map[], files);
    EmptyJournal(binaries, files);
    EmptyTimeline();
    TracedFirst(binaries, files, releases);
    assert disk.records.Keys == {};
    pre, target, hist, began, loss := files, files, [None], [Began(None, files)], None;
    boots, spans, safe, versions, peak := [], [], 0, [], 0;
    for p := 0 to processes
      invariant Survives(binaries, disk, faulty, fits, files, releases, pre, target, hist, began, loss)
      invariant safe <= |boots| == |spans| && (safe < |boots| ==> loss.Some? && loss.value.hist <= spans[safe].hist)
      invariant forall k :: 0 <= k < safe ==> Sound(boots[k], binaries, files, releases)
      invariant forall k :: 0 <= k < safe ==> Spanned(boots[k], binaries, spans[k], began)
      invariant |began| > 0 && began[0] == Began(None, files)
      invariant peak <= 1 && |versions| == p && forall q :: 0 <= q < p ==> Proven(versions[q])
    {
      var booted: Option<Disk>;
      ghost var span, sound, recorded, most;
      ghost var before := began;
      disk, booted, span, sound, pre, target, hist, began, loss, recorded, most :=
        Live(binaries, disk, faulty, fits, order, smooth, files, releases, pre, target, hist, began, loss);
      forall k | 0 <= k < safe ensures Spanned(boots[k], binaries, spans[k], began) { SpannedOn(boots[k], binaries, spans[k], before, began); }
      if booted.Some? {
        boots, spans := boots + [booted.value], spans + [span];
        if sound { safe := |boots|; }
      }
      versions := versions + [recorded];
      if most > peak { peak := most; }
    }
    if loss.None? {
      TimelineOrdered(hist, DurableJob(disk), disk.records.Keys);
      TracedLast(disk, binaries, pre, target, began, files, releases);
      if !Agree(disk.files, pre, binaries) { MixedMeansArmed(disk, binaries, pre, target); } else { AgreeingIsAll(disk.files, binaries, pre, target); }
    }
  }

  lemma SpannedOn(boot: Disk, bs: seq<Binary>, span: Span, began: seq<Began>, began': seq<Began>)
    requires Spanned(boot, bs, span, began) && began <= began'
    ensures Spanned(boot, bs, span, began')
  {
  }

  lemma TracedLast(d: Disk, bs: seq<Binary>, pre: map<string, Image>, target: map<string, Image>, began: seq<Began>,
                   first: map<string, Image>, releases: set<Release>)
    requires Traced(d.backup, d.undo, DurableId(d), bs, pre, target, began, first, releases)
    ensures |began| > 0 && began[|began| - 1] == Began(DurableId(d), pre)
  {
  }

  /** One guardian process, from its start to its end or death. `sound` says that nothing was lost when it had started. */
  method Live(binaries: seq<Binary>, disk0: Disk, faulty: bool, fits: Codec, order: Order, smooth: bool, first: map<string, Image>, releases: set<Release>,
              ghost pre0: map<string, Image>, ghost target0: map<string, Image>, ghost hist0: seq<Option<Job>>, ghost began0: seq<Began>,
              ghost loss0: Option<Loss>)
    returns (disk: Disk, booted: Option<Disk>, ghost span: Span, ghost sound: bool,
             ghost pre: map<string, Image>, ghost target: map<string, Image>, ghost hist: seq<Option<Job>>, ghost began: seq<Began>,
             ghost loss: Option<Loss>, ghost recorded: seq<Recorded>, ghost peak: nat)
    requires Survives(binaries, disk0, faulty, fits, first, releases, pre0, target0, hist0, began0, loss0) && |began0| > 0
    ensures Survives(binaries, disk, faulty, fits, first, releases, pre, target, hist, began, loss) && (loss0.Some? ==> loss == loss0)
    ensures began0 <= began && hist0 <= span.hist <= hist && span == Span(|began0| - 1, target0, span.hist)
    ensures sound && booted.Some? ==> Sound(booted.value, binaries, first, releases) && Spanned(booted.value, binaries, span, began)
    ensures (sound ==> loss0.None?) && (!sound ==> loss.Some? && loss.value.hist <= span.hist)
    ensures sound && booted.Some? ==> AllOrNothing(booted.value.files, binaries, pre0, target0)
    // what the start did not settle, it left as it was
    ensures booted.Some? ==>
      booted.value == disk0.(status := booted.value.status, records := booted.value.records, files := booted.value.files)
    ensures Proven(recorded) && peak <= 1
  {
    hide Service.Journaled, Survives, AllOrNothing, Small, Real, Proven, Sound, SameTargets;
    var service := Open(binaries, disk0, faulty, fits, order, smooth, first, releases, pre0, target0, hist0, began0, loss0);
    var guardian := new Guardian(service);
    var now: int := *;
    var up := guardian.Start(now);
    booted, span, sound := None, Span(|began0| - 1, target0, service.hist), service.loss.None?;
    if up == Done(Ok(())) {
      booted := Some(service.disk);
      if sound { Started(service, binaries, span); }
      var jobs: nat := *;
      ghost var was := service.binaries;
      ServeAll(guardian, jobs);
      TargetsTransitive(service.binaries, was, binaries);
    }
    disk := service.disk;
    pre, target, hist, began, loss := service.pre, service.target, service.hist, service.began, service.loss;
    recorded, peak := guardian.recorded, guardian.peak;
    HandedOn(service, binaries);
  }

  /** What a process leaves does not depend on the versions it stamped on the binaries. */
  lemma HandedOn(service: Service, bs: seq<Binary>)
    requires service.Good() && SameTargets(service.binaries, bs)
    ensures Survives(bs, service.disk, service.faulty, service.fits, service.first, service.releases, service.pre, service.target,
                     service.hist, service.began, service.loss)
  {
    hide Timeline, Journal, Traced, Enrolled, Small, Real;
    if service.loss.None? {
      VersionsDoNotMatter(service.disk, service.binaries, bs, service.pre, service.target);
      TracedVersions(service.disk.backup, service.disk.undo, DurableId(service.disk), service.binaries, bs, service.pre, service.target,
                     service.began, service.first, service.releases);
    }
  }

  /** What a start without a loss has found. */
  lemma Started(service: Service, bs: seq<Binary>, span: Span)
    requires service.Idle() && SameTargets(service.binaries, bs) && span == Span(|service.began| - 1, service.target, span.hist)
    ensures AllOrNothing(service.disk.files, bs, service.pre, service.target)
    ensures Sound(service.disk, bs, service.first, service.releases) && Spanned(service.disk, bs, span, service.began)
  {
    hide Timeline, Journal, Whole, Coherent, AllOrNothing, Enrolled;
    VersionsDoNotMatter(service.disk, service.binaries, bs, service.pre, service.target);
    TracedWhole(service.disk, service.binaries, service.pre, service.target, service.began, service.first, service.releases);
    WholeVersions(service.disk, service.binaries, bs);
    CoherentVersions(service.disk.files, service.binaries, bs, service.first, service.releases);
  }

  lemma StillUpdated(was: seq<Binary>, bs: seq<Binary>, files: map<string, Image>, releases: set<Release>, tag: string)
    requires SameTargets(bs, was)
    ensures (exists r :: r in releases && r.tag == tag && FromRelease(files, was, r)) ==> exists r :: r in releases && r.tag == tag && FromRelease(files, bs, r)
  {
    if r :| r in releases && r.tag == tag && FromRelease(files, was, r) { assert FromRelease(files, bs, r); }
  }

  lemma SmallFits(fits: Codec, count: nat, m: Manifest)
    requires Small(fits, count) && |m.entries| == count
    ensures fits.manifest(m)
  {
  }

  lemma AgreeingIsAll(files: map<string, Image>, bs: seq<Binary>, pre: map<string, Image>, target: map<string, Image>)
    requires Agree(files, pre, bs)
    ensures AllOrNothing(files, bs, pre, target)
  {
  }

  /** What a process leaves for the next one. */
  ghost predicate Survives(bs: seq<Binary>, disk: Disk, faulty: bool, fits: Codec, first: map<string, Image>, releases: set<Release>,
                           pre: map<string, Image>, target: map<string, Image>, hist: seq<Option<Job>>, began: seq<Began>, loss: Option<Loss>) {
    && (loss.Some? ==> (faulty || !Small(fits, |bs|)) && Real(loss.value) && loss.value.hist <= hist)
    && (loss.None? ==>
          && Journal(disk, bs, pre, target) && Timeline(hist, DurableJob(disk), disk.records.Keys)
          && Traced(disk.backup, disk.undo, DurableId(disk), bs, pre, target, began, first, releases)
          && Enrolled(began, disk.records.Keys))
  }

  /** A process starts: `New`, with any build version and, if reads may fail, perhaps without its journal. */
  method Open(binaries: seq<Binary>, disk: Disk, faulty: bool, fits: Codec, order: Order, smooth: bool, first: map<string, Image>, releases: set<Release>,
              ghost pre: map<string, Image>, ghost target: map<string, Image>, ghost hist: seq<Option<Job>>, ghost began: seq<Began>,
              ghost loss: Option<Loss>) returns (service: Service)
    requires Survives(binaries, disk, faulty, fits, first, releases, pre, target, hist, began, loss)
    ensures fresh(service) && service.binaries == binaries && service.faulty == faulty && service.fits == fits && service.disk == disk
    ensures service.order == order && service.smooth == smooth && service.first == first && service.releases == releases && service.began == began
    ensures service.hist == hist && service.pre == pre && service.target == target && (loss.Some? ==> service.loss == loss)
    ensures service.Good() && service.Opened()
  {
    hide Journal, Timeline, AllOrNothing, Traced, Enrolled;
    var version: string := *;
    var unreadable: bool := *;
    if loss.None? { TimelineOrdered(hist, DurableJob(disk), disk.records.Keys); }
    service := new Service(binaries, version, disk, faulty, fits, order, smooth, faulty && unreadable, first, releases, pre, target, hist, began, loss);
  }

  lemma EmptyTimeline()
    ensures Timeline([None], None, {})
  {
  }

  lemma TimelineOrdered(hist: seq<Option<Job>>, newest: Option<Job>, recorded: set<string>)
    requires Timeline(hist, newest, recorded)
    ensures Orderly(hist)
  {
  }

  /** A process serves jobs until it dies or nobody asks for more. */
  method ServeAll(guardian: Guardian, jobs: nat)
    modifies guardian, guardian.service
    ensures SameTargets(guardian.service.binaries, old(guardian.service.binaries))
    ensures old(guardian.OneChild()) ==> guardian.OneChild()
    ensures old(guardian.Versions()) ==> guardian.Versions()
    ensures guardian.service.Onward()
    ensures old(guardian.service.loss.Some? || guardian.service.Idle()) && old(guardian.service.Good()) ==> guardian.service.Good()
  {
    hide Traced, Enrolled, SameTargets, Journal, Timeline, AllOrNothing, Real, Small;
    TargetsReflexive(guardian.service.binaries);
    for k := 0 to jobs
      invariant SameTargets(guardian.service.binaries, old(guardian.service.binaries))
      invariant old(guardian.OneChild()) ==> guardian.OneChild()
      invariant old(guardian.Versions()) ==> guardian.Versions()
      invariant guardian.service.Onward()
      invariant old(guardian.service.loss.Some? || guardian.service.Idle()) && old(guardian.service.Good()) ==>
        guardian.service.Good() && (guardian.service.loss.Some? || guardian.service.Idle())
    {
      var action: Action, wanted: string, id: string, now: int := *, *, *, *;
      if id !in guardian.service.disk.records {
        ghost var was := guardian.service.binaries;
        var r := guardian.Serve(action, wanted, id, now);
        TargetsTransitive(guardian.service.binaries, was, old(guardian.service.binaries));
        if r.Crashed? { return; }
      }
    }
  }

  lemma TargetsTransitive(a: seq<Binary>, b: seq<Binary>, c: seq<Binary>)
    requires SameTargets(a, b) && SameTargets(b, c)
    ensures SameTargets(a, c)
  {
  }
}
