/** The node script service: at most four concurrent jobs, capped output, and a paged log. */
module ScriptJobs {
  import opened Basics

  const MAX_OUTPUT := 4 * 1024 * 1024
  const CHUNK := 64 * 1024
  const MAX_ACTIVE := 4

  datatype State = Running | Completed | Failed | TimedOut | Canceled | Interrupted

  datatype Job = Job(id: string, state: State, exitCode: int)

  datatype Result = Result(exitCode: int, error: bool, timedOut: bool)

  /** What `run` makes of an execution: stopping the daemon beats revocation, which beats the outcome itself. */
  function Verdict(r: Result, revoked: bool, stopped: bool): (s: State)
    ensures s.Completed? <==> r.exitCode == 0 && !r.error && !r.timedOut && !revoked && !stopped
    ensures s.Canceled? <==> revoked || stopped
    ensures s.TimedOut? <==> r.timedOut && !revoked && !stopped
    ensures s.Failed? <==> (r.exitCode != 0 || r.error) && !r.timedOut && !revoked && !stopped
    ensures !s.Running? && !s.Interrupted?
  {
    if stopped || revoked then Canceled
    else if r.timedOut then TimedOut
    else if r.exitCode != 0 || r.error then Failed
    else Completed
  }

  /** How a write of a record ends: a failure may leave it in place. */
  datatype Write = Saved | Unsaved(inPlace: bool)

  /** The final record of a job: what came of it, or a failure if its output or the record itself could not be saved. */
  function Final(id: string, r: Result, revoked: bool, stopped: bool, saved: bool): Job {
    if saved then Job(id, Verdict(r, revoked, stopped), if revoked || stopped then 130 else r.exitCode) else Job(id, Failed, 125)
  }

  /** The jobs marked running are exactly the active ones. */
  ghost predicate RunningExactly(jobs: map<string, Job>, active: set<string>) {
    forall id :: id in active <==> id in jobs && jobs[id].state.Running?
  }

  predicate Known(jobs: map<string, Job>) {
    forall id :: id in jobs ==> jobs[id].id == id
  }

  /** Every admitted job has one final record, or none while it is active. */
  predicate EndedOnce(ends: map<string, nat>, active: set<string>) {
    && active <= ends.Keys
    && forall id :: id in ends ==> ends[id] == if id in active then 0 else 1
  }

  /** What a restart makes of a record: a job that was running has been interrupted. */
  function Recovered(j: Job): Job {
    if j.state.Running? then j.(state := Interrupted, exitCode := 125) else j
  }

  /** `after` is `before` with the readable records recovered. */
  predicate Settles(before: map<string, Job>, after: map<string, Job>, unreadable: set<string>) {
    && after.Keys == before.Keys
    && forall id :: id in before ==> after[id] == if id in unreadable then before[id] else Recovered(before[id])
  }

  /** Every readable job left running can be saved as interrupted. */
  ghost predicate CanLoad(disk: map<string, Job>, unreadable: set<string>, unsavable: set<string>) {
    forall id :: id in disk && id !in unreadable && disk[id].state.Running? ==> id !in unsavable
  }

  /** `New`: reads every job record that can be read and settles those still marked running. It gives up if one cannot be saved. */
  method Load(disk0: map<string, Job>, unreadable: set<string>, unsavable: set<string>) returns (loaded: Option<map<string, Job>>, disk: map<string, Job>)
    requires Known(disk0)
    ensures Known(disk) && disk.Keys == disk0.Keys && forall id :: id in disk ==> disk[id] == disk0[id] || disk[id] == Recovered(disk0[id])
    ensures loaded.Some? <==> forall id :: id in disk0 && id !in unreadable && disk0[id].state.Running? ==> id !in unsavable
    ensures loaded.Some? ==> Settles(disk0, disk, unreadable)
    ensures loaded.Some? ==> loaded.value == map id | id in disk && id !in unreadable :: disk[id]
  {
    var jobs: map<string, Job> := map[];
    disk := disk0;
    var left := disk0.Keys;
    while left != {}
      invariant left <= disk0.Keys && Known(disk) && disk.Keys == disk0.Keys
      invariant forall id :: id in left ==> disk[id] == disk0[id]
      invariant forall id :: id in disk && id !in left ==> disk[id] == if id in unreadable then disk0[id] else Recovered(disk0[id])
      invariant jobs == map id | id in disk && id !in left && id !in unreadable :: disk[id]
      invariant forall id :: id in disk0 && id !in left && id !in unreadable && disk0[id].state.Running? ==> id !in unsavable
      decreases |left|
    {
      var id :| id in left;
      left := left - {id};
      if id !in unreadable {
        var j := disk[id];
        if j.state.Running? {
          j := Recovered(j);
          var partly: bool := *;
          if id !in unsavable || partly { disk := disk[id := j]; }
          if id in unsavable { return None, disk; }
        }
        jobs := jobs[id := j];
      }
    }
    loaded := Some(jobs);
  }

  /** A job that runs is on disk as running; a final record that is not the one on disk is the failure to save it. */
  predicate Recorded(disk: map<string, Job>, jobs: map<string, Job>, active: set<string>, admitted: set<string>) {
    && (forall id :: id in active ==> id in disk && id in jobs && disk[id] == jobs[id])
    && (forall id :: id in admitted && id in jobs && id in disk && id !in active ==> disk[id] == jobs[id] || jobs[id].state.Failed?)
  }

  /** What every interleaving keeps. */
  ghost predicate Orderly(disk: map<string, Job>, jobs: map<string, Job>, active: set<string>, ends: map<string, nat>) {
    && |active| <= 4
    && RunningExactly(jobs, active)
    && Known(disk) && Known(jobs) && jobs.Keys <= disk.Keys
    && EndedOnce(ends, active) && ends.Keys <= jobs.Keys && Recorded(disk, jobs, active, ends.Keys)
  }

  /** What is on record of a job that was not admitted does not matter. */
  lemma StrangerKeeps(disk: map<string, Job>, jobs: map<string, Job>, active: set<string>, ends: map<string, nat>, d: Job)
    requires Orderly(disk, jobs, active, ends) && d.id !in ends
    ensures Orderly(disk[d.id := d], jobs, active, ends)
  {
  }

  /** A job that was refused after all ends at once. */
  lemma RefusedKeeps(disk: map<string, Job>, jobs: map<string, Job>, active: set<string>, ends: map<string, nat>, j: Job)
    requires Orderly(disk, jobs, active, ends) && j.id in disk && j.id !in jobs && !j.state.Running?
    ensures Orderly(disk, jobs[j.id := j], active, ends)
  {
  }

  lemma StartKeeps(disk: map<string, Job>, jobs: map<string, Job>, active: set<string>, ends: map<string, nat>, j: Job)
    requires Orderly(disk, jobs, active, ends) && |active| < MAX_ACTIVE
    requires j.id in disk && disk[j.id] == j && j.id !in jobs && j.state.Running?
    ensures Orderly(disk, jobs[j.id := j], active + {j.id}, ends[j.id := 0])
  {
  }

  lemma ActiveKnown(disk: map<string, Job>, jobs: map<string, Job>, active: set<string>, ends: map<string, nat>, id: string)
    requires Orderly(disk, jobs, active, ends) && id in active
    ensures id in disk && disk[id].id == id && id in jobs && id in ends && ends[id] == 0
  {
  }

  /** Ending one job keeps what is known of all. */
  lemma EndKeeps(disk: map<string, Job>, jobs: map<string, Job>, active: set<string>, ends: map<string, nat>, d: Job, j: Job)
    requires Orderly(disk, jobs, active, ends)
    requires j.id in active && d.id == j.id && !j.state.Running? && (d == j || j.state.Failed?)
    ensures j.id in ends && ends[j.id] == 0 && j.id in jobs && j.id in disk
    ensures Orderly(disk[j.id := d], jobs[j.id := j], active - {j.id}, ends[j.id := 1])
  {
    assert RunningExactly(jobs[j.id := j], active - {j.id});
    assert ends[j.id := 1].Keys == ends.Keys;
  }

  class Service {
    /** job.json of every job, as a restart will find it. */
    var disk: map<string, Job>
    var jobs: map<string, Job>
    var active: set<string>
    var closed: bool

    /** How many final records each job admitted by this process has been given. */
    ghost var ends: map<string, nat>

    ghost predicate Valid()
      reads this
    {
      Orderly(disk, jobs, active, ends)
    }

    /** A service over the records `Load` gave. */
    constructor (disk: map<string, Job>, jobs: map<string, Job>)
      requires Known(disk) && Known(jobs) && jobs.Keys <= disk.Keys && forall id :: id in jobs ==> !jobs[id].state.Running?
      ensures Valid() && active == {} && !closed && ends == map[] && this.disk == disk && this.jobs == jobs
    {
      this.disk, this.jobs, active, closed := disk, jobs, {}, false;
      ends := map[];
    }

    /** `Start`, under the lock. The identifier is 128 random bits. */
    method Start(id: string, authorized: bool, record: Write, auditFails: bool, audited: Write) returns (ok: bool)
      requires Valid() && id !in disk
      modifies this
      ensures Valid() && closed == old(closed)
      ensures ok ==> !old(closed) && |old(active)| < MAX_ACTIVE && active == old(active) + {id} && jobs[id].state.Running?
      ensures ends == if ok then old(ends)[id := 0] else old(ends)
      ensures !ok ==> active == old(active)
      ensures ok <==> !old(closed) && |old(active)| < 4 && authorized && record.Saved? && !auditFails
      ensures old(closed) || |old(active)| >= 4 || !authorized ==> jobs == old(jobs) && disk == old(disk)
    {
      if closed || |active| >= MAX_ACTIVE { return false; }
      if !authorized { return false; }
      assert id !in jobs && id !in ends;
      hide Orderly;
      var j := Job(id, Running, -1);
      if record != Unsaved(false) {
        StrangerKeeps(disk, jobs, active, ends, j);
        disk := disk[id := j];
      }
      if !record.Saved? { return false; }
      if auditFails {
        j := j.(state := Failed, exitCode := 125);
        if audited != Unsaved(false) {
          StrangerKeeps(disk, jobs, active, ends, j);
          disk := disk[id := j];
        }
        RefusedKeeps(disk, jobs, active, ends, j);
        jobs := jobs[id := j];
        return false;
      }
      StartKeeps(disk, jobs, active, ends, j);
      active, jobs := active + {id}, jobs[id := j];
      ends := ends[id := 0];
      ok := true;
    }

    /** The locked end of `run`: the one place where an admitted job ends. */
    method Finish(id: string, r: Result, revoked: bool, stopped: bool, outputSaved: bool, record: Write)
      requires Valid() && id in active
      modifies this
      ensures Valid() && closed == old(closed)
      ensures active == old(active) - {id} && ends == old(ends)[id := 1]
      ensures jobs == old(jobs)[id := Final(id, r, revoked, stopped, outputSaved && record.Saved?)]
      ensures disk == if record == Unsaved(false) then old(disk) else old(disk)[id := Final(id, r, revoked, stopped, outputSaved)]
    {
      hide Orderly, Verdict;
      ActiveKnown(disk, jobs, active, ends, id);
      ghost var disk0 := disk;
      var j := SaveFinal(Job(id, Verdict(r, revoked, stopped), if revoked || stopped then 130 else r.exitCode), outputSaved, record);
      EndKeeps(disk0, jobs, active, ends, disk[id], j);
      assert disk == disk0[id := disk[id]];
      jobs := jobs[id := j];
      active := active - {id};
      ends := ends[id := ends[id] + 1];
    }

    /** Persists the final record; a job that cannot be persisted has failed. */
    method SaveFinal(j0: Job, outputSaved: bool, record: Write) returns (j: Job)
      modifies this`disk
      ensures j == if outputSaved && record.Saved? then j0 else Job(j0.id, Failed, 125)
      ensures disk == if record == Unsaved(false) then old(disk) else old(disk)[j0.id := if outputSaved then j0 else Job(j0.id, Failed, 125)]
    {
      j := if outputSaved then j0 else j0.(state := Failed, exitCode := 125);
      if record != Unsaved(false) { disk := disk[j0.id := j]; }
      if !record.Saved? { j := j.(state := Failed, exitCode := 125); }
    }

    /** `Close`: admits nothing more, cancels what runs and waits for it. */
    method Close()
      requires Valid()
      modifies this
      ensures Valid() && closed && active == {}
      ensures forall id :: id in jobs ==> !jobs[id].state.Running?
      ensures ends.Keys == old(ends).Keys && forall id :: id in ends ==> ends[id] == 1
    {
      closed := true;
      while active != {}
        invariant Valid() && closed && ends.Keys == old(ends).Keys
        decreases |active|
      {
        var id :| id in active;
        var r: Result, revoked: bool, saved: bool, record: Write := *, *, *, *;
        Finish(id, r, revoked, true, saved, record);
      }
    }
  }

  datatype Event = Admit(id: string, authorized: bool, record: Write, auditFails: bool, audited: Write) | End(id: string, r: Result, revoked: bool, stopped: bool, saved: bool, record: Write)

  /** How a process ends: by `Close`, or dead at any point, perhaps behind the rename of a record it was saving. */
  datatype Ending = Closing | Crash(saving: Option<Job>)

  /** A record that a process may have been saving: the final one of an active job, or the first one of a job not admitted yet. */
  predicate HalfSaved(j: Job, disk: map<string, Job>, active: set<string>) {
    if j.id in active then !j.state.Running? && !j.state.Interrupted? else j.id !in disk && j.state.Running?
  }

  /** The disk a dead process leaves, which its memory does not know of yet. */
  function LeftBehind(ending: Ending, disk: map<string, Job>, active: set<string>): map<string, Job> {
    if ending.Crash? && ending.saving.Some? && HalfSaved(ending.saving.value, disk, active)
    then disk[ending.saving.value.id := ending.saving.value] else disk
  }

  /** What a restart finds of a job that was active when the process died. */
  function FoundAfter(ending: Ending, disk: map<string, Job>, active: set<string>, id: string): Job {
    if ending.Crash? && ending.saving.Some? && ending.saving.value.id == id && HalfSaved(ending.saving.value, disk, active)
    then ending.saving.value else Job(id, Interrupted, 125)
  }

  predicate NoRepeats(ids: seq<string>) {
    forall i, j :: 0 <= i < j < |ids| ==> ids[i] != ids[j]
  }

  /** The identifiers these events ask to admit. */
  function Asked(events: seq<Event>): set<string> {
    set e | e in events && e.Admit? :: e.id
  }

  /** `ids` were admitted, one after the other, on top of those in `before`. */
  predicate Admissions(ids: seq<string>, before: set<string>, after: set<string>) {
    NoRepeats(ids) && (forall id :: id in ids ==> id !in before) && after == before + set id | id in ids
  }

  lemma OneMoreAdmitted(ids: seq<string>, before: set<string>, after: set<string>, id: string)
    requires Admissions(ids, before, after) && id !in after
    ensures Admissions(ids + [id], before, after + {id})
  {
  }

  /** The jobs of a restarted service, against the memory and the disk of the process before it. */
  predicate Restarted(jobs: map<string, Job>, memory: map<string, Job>, ends: set<string>, active: set<string>, disk: map<string, Job>,
                      ending: Ending, unreadable: set<string>)
    requires ends <= memory.Keys && ends <= disk.Keys
  {
    var left := LeftBehind(ending, disk, active);
    && jobs.Keys == left.Keys - unreadable
    && (forall id :: id in jobs ==> jobs[id] == Recovered(left[id]) && !jobs[id].state.Running?)
    // a job that had ended has the same record exactly if that record was saved; otherwise it had failed for that reason
    && (forall id :: id in ends && id !in active && id in jobs ==> (jobs[id] == memory[id] <==> disk[id] == memory[id]))
    && (forall id :: id in ends && id !in active && disk[id] != memory[id] ==> memory[id].state.Failed?)
    // an active one was interrupted, or has the final record the process died over
    && (forall id :: id in active && id in jobs ==> jobs[id] == FoundAfter(ending, disk, active, id))
  }

  /** `Load` over what is left behind. */
  lemma RestartFinds(jobs: map<string, Job>, disk': map<string, Job>, disk: map<string, Job>, memory: map<string, Job>, active: set<string>,
                     ends: map<string, nat>, ending: Ending, unreadable: set<string>)
    requires Orderly(disk, memory, active, ends)
    requires Settles(LeftBehind(ending, disk, active), disk', unreadable)
    requires jobs == map id | id in disk' && id !in unreadable :: disk'[id]
    ensures ends.Keys <= memory.Keys <= disk.Keys && Restarted(jobs, memory, ends.Keys, active, disk, ending, unreadable)
  {
    var left := LeftBehind(ending, disk, active);
    forall id | id in jobs ensures jobs[id] == Recovered(left[id]) && id in left { }
    assert jobs.Keys == left.Keys - unreadable;
    forall id | id in ends && id !in active && id in jobs ensures jobs[id] == memory[id] <==> disk[id] == memory[id] {
      assert left[id] == disk[id] && !memory[id].state.Running?;
      assert disk[id] != memory[id] ==> memory[id].state.Failed?;
    }
  }

  /**
   Any interleaving of starts and ends, then a close or a crash, and a restart. In one process each admitted job ends exactly
   once or, when the process dies, is still active; a restart finds none running, those that ended as they were saved, and
   every job that was active interrupted, or with the final record over which the process died.
   */
  method Interleave(s: Service, events: seq<Event>, ending: Ending, unreadable: set<string>, unsavable: set<string>) returns (admitted: seq<string>, restarted: Option<Service>)
    requires s.Valid()
    modifies s
    ensures s.Valid() && (ending.Closing? ==> s.active == {} && s.closed)
    ensures Admissions(admitted, old(s.ends).Keys, s.ends.Keys) && forall id :: id in admitted ==> id in Asked(events)
    ensures forall id :: id in s.ends ==> s.ends[id] == if id in s.active then 0 else 1
    ensures restarted.Some? <==> CanLoad(LeftBehind(ending, s.disk, s.active), unreadable, unsavable)
    ensures forall id :: id in s.ends ==> id in s.jobs && id in s.disk && (s.jobs[id].state.Running? <==> id in s.active)
    ensures restarted.Some? ==> var t := restarted.value;
      fresh(t) && t.Valid() && t.active == {} && Restarted(t.jobs, s.jobs, s.ends.Keys, s.active, s.disk, ending, unreadable)
  {
    hide Admissions, Restarted, Asked, Recorded, Known;
    admitted := Play(s, events);
    ghost var ends := s.ends;
    if ending.Closing? { s.Close(); }
    assert s.ends.Keys == ends.Keys;
    RunningOnes(s.disk, s.jobs, s.active, s.ends);
    restarted := Restart(s, ending, unreadable, unsavable);
  }

  /** Starts and ends in any order. */
  method Play(s: Service, events: seq<Event>) returns (admitted: seq<string>)
    requires s.Valid()
    modifies s
    ensures s.Valid() && Admissions(admitted, old(s.ends).Keys, s.ends.Keys) && forall id :: id in admitted ==> id in Asked(events)
  {
    hide Admissions, Asked, RunningExactly, Recorded;
    admitted := [];
    NoneAdmitted(s.ends.Keys);
    for i := 0 to |events|
      invariant s.Valid() && Admissions(admitted, old(s.ends).Keys, s.ends.Keys)
      invariant forall id :: id in admitted ==> id in Asked(events)
    {
      ghost var ends := s.ends;
      match events[i]
      case Admit(id, authorized, record, auditFails, audited) =>
        if id !in s.disk {
          OneMoreAdmitted(admitted, old(s.ends).Keys, s.ends.Keys, id);
          AskedFor(events, i);
          var ok := s.Start(id, authorized, record, auditFails, audited);
          if ok {
            assert s.ends.Keys == ends.Keys + {id};
            admitted := admitted + [id];
          }
        }
      case End(id, r, revoked, stopped, saved, record) =>
        if id in s.active {
          ActiveKnown(s.disk, s.jobs, s.active, s.ends, id);
          s.Finish(id, r, revoked, stopped, saved, record);
          assert s.ends.Keys == ends.Keys;
        }
    }
  }

  /** The next process, over what this one leaves behind. */
  method Restart(s: Service, ending: Ending, unreadable: set<string>, unsavable: set<string>) returns (restarted: Option<Service>)
    requires s.Valid()
    ensures restarted.Some? <==> CanLoad(LeftBehind(ending, s.disk, s.active), unreadable, unsavable)
    ensures restarted.Some? ==> var t := restarted.value;
      fresh(t) && t.Valid() && t.active == {} && Restarted(t.jobs, s.jobs, s.ends.Keys, s.active, s.disk, ending, unreadable)
  {
    hide Settles, LeftBehind, Restarted, RunningExactly;
    LeftKnown(ending, s.disk, s.active);
    var loaded, disk := Load(LeftBehind(ending, s.disk, s.active), unreadable, unsavable);
    if loaded.None? { return None; }
    RestartFinds(loaded.value, disk, s.disk, s.jobs, s.active, s.ends, ending, unreadable);
    NoneRunning(loaded.value, s.jobs, s.ends.Keys, s.active, s.disk, ending, unreadable);
    var t := new Service(disk, loaded.value);
    restarted := Some(t);
  }

  lemma NoneAdmitted(before: set<string>)
    ensures Admissions([], before, before)
  {
  }

  lemma AskedFor(events: seq<Event>, i: nat)
    requires i < |events| && events[i].Admit?
    ensures events[i].id in Asked(events)
  {
  }

  lemma LeftKnown(ending: Ending, disk: map<string, Job>, active: set<string>)
    requires Known(disk)
    ensures Known(LeftBehind(ending, disk, active))
  {
  }

  lemma RunningOnes(disk: map<string, Job>, jobs: map<string, Job>, active: set<string>, ends: map<string, nat>)
    requires Orderly(disk, jobs, active, ends)
    ensures forall id :: id in ends ==> id in jobs && id in disk && (jobs[id].state.Running? <==> id in active)
  {
  }

  lemma NoneRunning(jobs: map<string, Job>, memory: map<string, Job>, ends: set<string>, active: set<string>, disk: map<string, Job>,
                    ending: Ending, unreadable: set<string>)
    requires ends <= memory.Keys && ends <= disk.Keys && Restarted(jobs, memory, ends, active, disk, ending, unreadable)
    ensures forall id :: id in jobs ==> !jobs[id].state.Running?
  {
  }

  // ----- output -----

  function Prefix(s: Bytes, n: nat): Bytes {
    if |s| <= n then s else s[..n]
  }

  /** `cappedOutput`: one stream's file. */
  class CappedOutput {
    var file: Bytes
    var written: nat
    var truncated: bool
    ghost var offered: Bytes

    /** The file is exactly the start of what was offered. */
    ghost predicate Valid()
      reads this
    {
      file == Prefix(offered, 4194304) && written == |file| && (truncated <==> |offered| > 4194304)
    }

    constructor ()
      ensures Valid() && offered == []
    {
      file, written, truncated, offered := [], 0, false, [];
    }

    /** The file takes up to `room` bytes. A write that fails has taken `n` bytes; any other takes all of them, stored or not. */
    method Write(p: Bytes, room: nat) returns (n: nat, ok: bool)
      requires Valid()
      modifies this
      ensures n <= |p| && Valid() && offered == old(offered) + p[..n]
      ensures ok ==> n == |p|
      ensures ok <==> |p| <= room || |old(offered)| + room >= 4194304
      ensures !ok ==> n == room
      ensures |old(offered)| + |p| > 4194304 && ok ==> truncated
    {
      var keep := if |p| < MAX_OUTPUT - written then |p| else MAX_OUTPUT - written;
      if keep > 0 {
        var failed, k := room < keep, if room < keep then room else keep;
        file := file + p[..k];
        written := written + k;
        if failed {
          offered := offered + p[..k];
          return k, false;
        }
      }
      if keep < |p| { truncated := true; }
      offered := offered + p;
      assert p[..|p|] == p;
      n, ok := |p|, true;
    }
  }

  datatype LogChunk = LogChunk(data: Bytes, next: nat, eof: bool)

  datatype LogReply = Page(chunk: LogChunk) | Refused

  /** `Log`: one page of a stored stream. */
  function Log(file: Bytes, offset: int): LogReply {
    if offset < 0 || offset > MAX_OUTPUT + 4096 then Refused
    else
      var data := if offset >= |file| then [] else Prefix(file[offset..], CHUNK);
      Page(LogChunk(data, offset + |data|, offset + |data| >= |file|))
  }

  /** The largest log that can be paged through: the last page may start at most at the offset limit. */
  const MAX_PAGED := (MAX_OUTPUT / CHUNK + 1) * CHUNK

  /** A client following `NextOffset` from the start gets the whole log back exactly when it is not over the limit. */
  method FollowLog(file: Bytes) returns (r: Option<Bytes>)
    ensures r == if |file| <= 4259840 then Some(file) else None
  {
    var got: Bytes, offset := [], 0;
    ghost var pages := 0;
    while true
      invariant offset == pages * CHUNK <= MAX_PAGED && (offset == 0 || offset < |file|)
      invariant offset <= |file| && got == file[..offset]
      decreases |file| - offset, 1
    {
      var reply := Log(file, offset);
      if reply.Refused? { return None; }
      assert pages <= MAX_OUTPUT / CHUNK;
      got := got + reply.chunk.data;
      assert got == file[..reply.chunk.next];
      if reply.chunk.eof {
        assert file[..|file|] == file;
        return Some(got);
      }
      offset := reply.chunk.next;
      pages := pages + 1;
    }
  }

  /** What a job without streaming stores of its two outputs. */
  function StoredStdout(out: Bytes): Bytes { Prefix(out, MAX_OUTPUT) }

  function StoredStderr(out: Bytes): Bytes { Prefix(out, MAX_OUTPUT + 4096) }

  /** Every log the service stores can be paged through: a streamed file, and both outputs of a job without streaming. */
  method FollowStored(stream: CappedOutput, stdout: Bytes, stderr: Bytes) returns (a: Option<Bytes>, b: Option<Bytes>, c: Option<Bytes>)
    requires stream.Valid()
    ensures a == Some(Prefix(stream.offered, 4194304)) && b == Some(Prefix(stdout, 4194304)) && c == Some(Prefix(stderr, 4198400))
  {
    a := FollowLog(stream.file);
    b := FollowLog(StoredStdout(stdout));
    c := FollowLog(StoredStderr(stderr));
  }
}
