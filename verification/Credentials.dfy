/**
 Credential transactions: a bundle's files are replaced one after the other, and undone in reverse when
 authority is revoked, a file has changed meanwhile, or a write fails. The model starts from opened directories.
 */
module Credentials {
  import opened Basics
  import opened CredentialText

  datatype File = File(name: string, data: Bytes)

  datatype Bundle = Bundle(harness: string, files: seq<File>)

  datatype Read = Data(data: Bytes) | Missing | Unreadable

  datatype Receipt = Receipt(backup: string, done: bool)

  type Directory = map<string, Bytes>

  /** `Bundle.Validate`; `json` stands for the JSON syntax check. */
  predicate ValidBundle(json: Bytes -> bool, b: Bundle) {
    && Names(b.harness) != [] && b.files != []
    && (forall i :: 0 <= i < |b.files| ==> Proper(json, b.harness, b.files[i]))
    && AllDifferent(BundleNames(b))
    && BundleSize(b.files) <= 18432
  }

  predicate Proper(json: Bytes -> bool, harness: string, f: File) {
    f.name in Names(harness) && f.data != [] && json(f.data)
  }

  predicate AllDifferent(names: seq<string>) {
    forall i, j :: 0 <= i < j < |names| ==> names[i] != names[j]
  }

  function BundleSize(fs: seq<File>): nat {
    if fs == [] then 0 else |fs[0].data| + BundleSize(fs[1..])
  }

  method Validate(json: Bytes -> bool, b: Bundle) returns (ok: bool)
    ensures ok == ValidBundle(json, b)
  {
    hide Names;
    if Names(b.harness) == [] || b.files == [] { return false; }
    var count := 0;
    var seen: seq<string> := [];
    for i := 0 to |b.files|
      invariant seen == BundleNames(b)[..i] && AllDifferent(seen)
      invariant forall k :: 0 <= k < i ==> Proper(json, b.harness, b.files[k])
      invariant count + BundleSize(b.files[i..]) == BundleSize(b.files)
    {
      var f := b.files[i];
      assert b.files[i..][1..] == b.files[i + 1..];
      if f.name in seen || !Proper(json, b.harness, f) { return false; }
      seen := seen + [f.name];
      count := count + |f.data|;
    }
    assert seen == BundleNames(b);
    ok := count <= MAX_BYTES;
  }

  /** The directory is as the backup remembers this file. */
  predicate Holds(dir: Directory, f: SavedFile) {
    if f.exists_ then f.name in dir && dir[f.name] == f.data else f.name !in dir
  }

  predicate HoldAll(dir: Directory, fs: seq<SavedFile>) {
    forall i :: 0 <= i < |fs| ==> Holds(dir, fs[i])
  }

  predicate SameAt(d: Directory, d': Directory, name: string) {
    (name in d <==> name in d') && (name in d ==> d[name] == d'[name])
  }

  /** The file is as somebody else left it. */
  predicate LeftAt(theirs: map<string, Option<Bytes>>, d: Directory, name: string) {
    name in theirs && if theirs[name].Some? then name in d && d[name] == theirs[name].value else name !in d
  }

  /** None of these files is too large to be kept. */
  predicate Bounded(d: Directory, names: seq<string>) {
    forall i :: 0 <= i < |names| && names[i] in d ==> |d[names[i]]| <= 18432
  }

  /** Nothing outside these files differs. */
  ghost predicate OnlyAt(d: Directory, d': Directory, fs: seq<SavedFile>) {
    forall name :: (forall i :: 0 <= i < |fs| ==> fs[i].name != name) ==> SameAt(d, d', name)
  }

  /** Every difference is a file brought to what `fs` remembers. */
  ghost predicate OnlyRestored(d: Directory, d': Directory, fs: seq<SavedFile>) {
    forall name :: SameAt(d, d', name) || exists i :: 0 <= i < |fs| && fs[i].name == name && Holds(d', fs[i])
  }

  lemma RestoreStep(d0: Directory, d: Directory, d': Directory, fs: seq<SavedFile>, i: nat)
    requires i < |fs| && OnlyAt(d0, d, fs) && OnlyRestored(d0, d, fs)
    requires d' == d || (Holds(d', fs[i]) && forall n :: n != fs[i].name ==> SameAt(d, d', n))
    ensures OnlyAt(d0, d', fs) && OnlyRestored(d0, d', fs)
  {
    forall name | forall k :: 0 <= k < |fs| ==> fs[k].name != name ensures SameAt(d0, d', name) {
      assert SameAt(d0, d, name) && SameAt(d, d', name);
    }
    forall name ensures SameAt(d0, d', name) || exists k :: 0 <= k < |fs| && fs[k].name == name && Holds(d', fs[k]) {
      assert name != fs[i].name ==> SameAt(d, d', name);
      if name != fs[i].name && !SameAt(d0, d, name) {
        var k :| 0 <= k < |fs| && fs[k].name == name && Holds(d, fs[k]);
        assert Holds(d', fs[k]);
      }
    }
  }

  class Store {
    var files: Directory
    var backups: map<string, Backup>

    /** What somebody else does meanwhile: the content each of these files is given, or its removal, before it is replaced. */
    const theirs: map<string, Option<Bytes>>
    /** Whether the writes of a rollback may fail, too. */
    const flaky: bool
    /** Authority is given, and reads and the writes of an operation do not fail. */
    const smooth: bool
    /** When a backup was made: its own account, or its file's where it gives none. */
    const made: (string, Backup) -> int

    constructor (files: Directory, theirs: map<string, Option<Bytes>>, flaky: bool, smooth: bool, made: (string, Backup) -> int)
      ensures this.smooth == smooth
      ensures this.files == files && this.theirs == theirs && this.flaky == flaky && this.made == made && Valid()
    {
      this.files, backups, this.theirs, this.flaky, this.smooth, this.made := files, map[], theirs, flaky, smooth, made;
    }

    /** Everything in the backup directory can be read back. */
    ghost predicate Valid()
      reads this
    {
      forall id :: id in backups ==> Readable(backups[id])
    }

    method Authorize() returns (b: bool)
      ensures smooth ==> b
    {
      b := *;
      b := b || smooth;
    }

    method ReadFile(name: string) returns (r: Read)
      ensures r.Data? ==> name in files && files[name] == r.data && |r.data| <= MAX_BYTES
      ensures r.Missing? ==> name !in files
      ensures r.Unreadable? && smooth ==> name in files && |files[name]| > MAX_BYTES
    {
      var broken: bool := *;
      if broken && !smooth { return Unreadable; }
      if name !in files { return Missing; }
      r := if |files[name]| > MAX_BYTES then Unreadable else Data(files[name]);
    }

    /** A rename over the name: a failure may come before or after it. */
    method AtomicFile(name: string, raw: Bytes, mayFail: bool) returns (ok: bool)
      modifies this`files
      ensures files == old(files) || files == old(files)[name := raw]
      ensures ok ==> files == old(files)[name := raw]
      ensures !ok ==> mayFail
    {
      ok := *;
      ok := ok || !mayFail;
      var renamed: bool := *;
      if ok || renamed { files := files[name := raw]; }
    }

    method Remove(name: string, mayFail: bool) returns (ok: bool)
      modifies this`files
      ensures files == old(files) || files == old(files) - {name}
      ensures ok ==> files == old(files) - {name}
      ensures !ok ==> mayFail
    {
      ok := *;
      ok := ok || !mayFail;
      var removed: bool := *;
      if ok || removed { files := files - {name}; }
    }

    /** Somebody else touches this file, if they are to. */
    method Interfere(name: string)
      modifies this`files
      ensures name !in theirs ==> files == old(files)
      ensures name in theirs ==> LeftAt(theirs, files, name)
      ensures forall n :: n != name ==> SameAt(old(files), files, n)
    {
      if name in theirs {
        files := if theirs[name].Some? then files[name := theirs[name].value] else files - {name};
      }
    }

    /** `restoreFiles`: last file first, going on past failures. */
    method RestoreFiles(fs: seq<SavedFile>) returns (ok: bool)
      requires DistinctNames(fs)
      modifies this`files
      ensures OnlyAt(old(files), files, fs) && OnlyRestored(old(files), files, fs)
      ensures ok ==> HoldAll(files, fs)
      ensures !ok ==> flaky
    {
      ok := true;
      for i := |fs| downto 0
        invariant OnlyAt(old(files), files, fs) && OnlyRestored(old(files), files, fs)
        invariant ok ==> forall k :: i <= k < |fs| ==> Holds(files, fs[k])
        invariant !ok ==> flaky
      {
        ghost var d := files;
        var done := RestoreFile(fs[i], flaky);
        RestoreStep(old(files), d, files, fs, i);
        assert forall k :: i < k < |fs| ==> SameAt(d, files, fs[k].name);
        if !done { ok := false; }
      }
    }

    /** Makes one file as it was saved: its content, or its absence. */
    method RestoreFile(f: SavedFile, mayFail: bool) returns (ok: bool)
      modifies this`files
      ensures files == old(files) || Holds(files, f)
      ensures ok ==> Holds(files, f)
      ensures !ok ==> mayFail
      ensures forall n :: n != f.name ==> SameAt(old(files), files, n)
    {
      if f.exists_ {
        ok := AtomicFile(f.name, f.data, mayFail);
      } else {
        ok := Remove(f.name, mayFail);
      }
    }

    /** The present state of the named files (`previousFiles`, and the first loop of `Receive`). */
    method Snapshot(names: seq<string>, mayExist: bool) returns (r: Result<seq<SavedFile>>)
      ensures r.Ok? ==> Remembers(r.value, names)
      ensures r.Ok? && !mayExist ==> forall i :: 0 <= i < |names| ==> names[i] !in files
      ensures r.Err? && smooth ==> !Bounded(files, names) || (!mayExist && exists i :: 0 <= i < |names| && names[i] in files)
    {
      var saved: seq<SavedFile> := [];
      for i := 0 to |names|
        invariant Remembers(saved, names[..i])
        invariant !mayExist ==> forall k :: 0 <= k < i ==> names[k] !in files
      {
        var raw := ReadFile(names[i]);
        if raw.Unreadable? || (raw.Data? && !mayExist) { return Err; }
        saved := saved + [SavedFile(names[i], raw.Data?, if raw.Data? then raw.data else [])];
        assert names[..i + 1] == names[..i] + [names[i]];
      }
      assert names[..|names|] == names;
      r := Ok(saved);
    }

    /** `saved` is exactly the present state of these files, each within the size limit. */
    ghost predicate Remembers(saved: seq<SavedFile>, names: seq<string>)
      reads this
    {
      && |saved| == |names| && HoldAll(files, saved)
      && forall i :: 0 <= i < |saved| ==>
        && saved[i].name == names[i] && |saved[i].data| <= MAX_BYTES
        && (!saved[i].exists_ ==> saved[i].data == [])
    }

    /** `saveBackup`, under a fresh random identifier. */
    method SaveBackup(b: Backup, id: string) returns (ok: bool)
      requires Saveable(b)
      modifies this`backups
      ensures old(Valid()) ==> Valid()
      ensures backups == old(backups) || backups == old(backups)[id := b]
      ensures ok ==> backups == old(backups)[id := b]
      ensures smooth ==> ok
    {
      SavedIsReadable(b);
      ok := *;
      ok := ok || smooth;
      var renamed: bool := *;
      if ok || renamed { backups := backups[id := b]; }
    }

    /** Undoes the first `n` replacements. */
    method BackOut(previous: seq<SavedFile>, n: nat)
      requires n <= |previous| && DistinctNames(previous)
      modifies this`files
      ensures OnlyAt(old(files), files, previous[..n]) && OnlyRestored(old(files), files, previous[..n])
      ensures !flaky ==> HoldAll(files, previous[..n])
    {
      var _ := RestoreFiles(previous[..n]);
    }

    /** The replacing loop of `Receive` and `Restore`. */
    method ReplaceAll(previous: seq<SavedFile>, wanted: seq<SavedFile>) returns (ok: bool)
      requires DistinctNames(previous) && SavedNames(wanted) == SavedNames(previous) && HoldAll(files, previous)
      modifies this`files
      ensures OnlyAt(old(files), files, wanted)
      // a file that somebody else has changed is not overwritten
      ensures ok ==> HoldAll(files, wanted) && Undisturbed(theirs, old(files), wanted)
      ensures smooth && Undisturbed(theirs, old(files), wanted) && (forall k :: 0 <= k < |previous| ==> |previous[k].data| <= MAX_BYTES) ==> ok
      ensures !ok ==> forall name :: Replaced(old(files), files, wanted, name) || LeftAt(theirs, files, name)
      ensures !ok && !flaky ==> forall name :: SameAt(old(files), files, name) || LeftAt(theirs, files, name)
    {
      ghost var d0 := files;
      Named(wanted, previous, 0);
      for i := 0 to |wanted|
        invariant OnlyAt(d0, files, wanted[..i]) && HoldAll(files, wanted[..i]) && Undisturbed(theirs, d0, wanted[..i])
      {
        var allowed := Authorize();
        ghost var d := files;
        PartlyReplaced(d0, d, wanted, i);
        if !allowed {
          BackOut(previous, i);
          BackedOut(d0, d, files, previous, wanted, i, flaky);
          return false;
        }
        ok := ReplaceOne(d0, previous, wanted, i);
        if !ok { return; }
      }
      assert wanted[..|wanted|] == wanted;
      ok := true;
    }

    /** One file: checked against the snapshot, then replaced; a refusal or a failure undoes it and those before it. */
    method ReplaceOne(ghost d0: Directory, previous: seq<SavedFile>, wanted: seq<SavedFile>, i: nat) returns (ok: bool)
      requires i < |wanted| == |previous| && DistinctNames(previous) && SavedNames(wanted) == SavedNames(previous) && HoldAll(d0, previous)
      requires OnlyAt(d0, files, wanted[..i]) && HoldAll(files, wanted[..i]) && Undisturbed(theirs, d0, wanted[..i])
      modifies this`files
      ensures OnlyAt(d0, files, wanted)
      ensures ok ==> OnlyAt(d0, files, wanted[..i + 1]) && HoldAll(files, wanted[..i + 1]) && Undisturbed(theirs, d0, wanted[..i + 1])
      ensures !ok ==> forall name :: Replaced(d0, files, wanted, name) || LeftAt(theirs, files, name)
      ensures !ok && !flaky ==> forall name :: SameAt(d0, files, name) || LeftAt(theirs, files, name)
      ensures smooth && Undisturbed(theirs, d0, wanted) && |previous[i].data| <= MAX_BYTES ==> ok
    {
      hide HoldAll, OnlyAt, OnlyRestored, Undisturbed, DistinctNames, Replaced;
      ghost var d := files;
      Interfere(wanted[i].name);
      ghost var d1 := files;
      if Undisturbed(theirs, d0, wanted) { StillAsFound(theirs, d0, d, d1, previous, wanted, i); }
      var same := Unchanged(previous[i]);
      if !same {
        BackOut(previous, i);
        Refused(theirs, d0, d, d1, files, previous, wanted, i, flaky);
        return false;
      }
      Checked(theirs, d0, d, d1, previous, wanted, i);
      ok := RestoreFile(wanted[i], !smooth);
      ghost var d2 := files;
      Replacing(d0, d1, files, previous, wanted, i);
      if !ok {
        BackOut(previous, i + 1);
        BackedOut(d0, d2, files, previous, wanted, i + 1, flaky);
      }
    }

    /** The file is still what the snapshot found. */
    method Unchanged(p: SavedFile) returns (same: bool)
      ensures same ==> Holds(files, p)
      ensures smooth && Holds(files, p) && |p.data| <= MAX_BYTES ==> same
    {
      var current := ReadFile(p.name);
      same := if p.exists_ then current == Data(p.data) else current.Missing?;
    }

    /** The bundle's files can be saved, may be replaced, and are not changed meanwhile. */
    ghost predicate Takes(b: Bundle, overwrite: bool)
      reads this`files
    {
      && Bounded(files, BundleNames(b)) && Undisturbed(theirs, files, Wanted(b))
      && (overwrite || forall i :: 0 <= i < |b.files| ==> b.files[i].name !in files)
    }

    /** `Receive`. */
    method Receive(json: Bytes -> bool, b: Bundle, overwrite: bool, now: string, id: string) returns (receipt: Receipt, ok: bool)
      requires |now| <= 30
      modifies this
      ensures old(Valid()) ==> Valid()
      ensures ok ==> receipt == Receipt(id, true) && ValidBundle(json, b)
      // when nothing fails, exactly a valid bundle is taken, over files that are not too large and that nobody else changes
      ensures smooth ==> (ok <==> ValidBundle(json, b) && old(Takes(b, overwrite)))
      // all bundle bytes are in place, and the saved backup is the exact prior state
      ensures ok ==> forall i :: 0 <= i < |b.files| ==> b.files[i].name in files && files[b.files[i].name] == b.files[i].data
      ensures ok ==> id in backups && backups[id].harness == b.harness && Restorable(backups[id].files, BundleNames(b), old(files))
      ensures ok && !overwrite ==> forall i :: 0 <= i < |b.files| ==> b.files[i].name !in old(files)
      ensures forall name :: name in BundleNames(b) || SameAt(old(files), files, name)
      // and nobody else's change was overwritten
      ensures ok ==> forall name :: name in BundleNames(b) && name in theirs ==> LeftAt(theirs, old(files), name)
      // or every file is as it was, or as somebody else left it
      ensures !ok && !flaky ==> forall name :: SameAt(old(files), files, name) || LeftAt(theirs, files, name)
      // and if putting one back may fail, it holds its old or its new content
      ensures !ok ==> forall name :: SameAt(old(files), files, name) || LeftAt(theirs, files, name) || Installed(b, files, name)
    {
      hide Names, Readable, Saveable, OnlyAt, Undisturbed, Replaced, Installed, LeftAt;
      receipt := Receipt("", false);
      var valid := Validate(json, b);
      var allowed := Authorize();
      if !valid || !allowed { return receipt, false; }
      var names := BundleNames(b);
      var previous := Snapshot(names, overwrite);
      if previous.Err? { return receipt, false; }
      var saved := SaveBackup(Backup(now, b.harness, previous.value), id);
      if !saved { return receipt, false; }
      receipt := Receipt(id, false);
      var wanted := Wanted(b);
      ghost var d0 := files;
      assert SavedNames(wanted) == SavedNames(previous.value) == names;
      ok := ReplaceAll(previous.value, wanted);
      OnlyNamed(d0, files, wanted);
      if ok {
        receipt := Receipt(id, true);
        AllInstalled(theirs, b, d0, files);
      } else {
        SomeInstalled(theirs, b, d0, files);
      }
    }

    /** `Backup`: saves the present files of a harness. */
    method SaveCurrent(harness: string, now: string, id: string) returns (ok: bool)
      requires |now| <= 30
      modifies this`backups
      ensures old(Valid()) ==> Valid()
      ensures ok ==> id in backups && backups[id].harness == harness && Restorable(backups[id].files, Names(harness), files)
      ensures smooth ==> (ok <==> Names(harness) != [] && Bounded(files, Names(harness)))
    {
      var allowed := Authorize();
      if !allowed || Names(harness) == [] { return false; }
      var previous := Snapshot(Names(harness), true);
      if previous.Err? { return false; }
      ok := SaveBackup(Backup(now, harness, previous.value), id);
    }

    /** A readable backup of this harness. */
    predicate Candidate(kept: map<string, Backup>, harness: string, id: string) {
      id in kept && kept[id].harness == harness && Readable(kept[id])
    }

    predicate NotOlder(kept: map<string, Backup>, id: string, other: string)
      requires id in kept && other in kept
    {
      var t, u := made(id, kept[id]), made(other, kept[other]);
      t > u || (t == u && Rank(id) >= Rank(other))
    }

    /** The newest backup of a harness, and of those made at once the one with the greatest identifier. */
    ghost predicate Newest(kept: map<string, Backup>, harness: string, id: string) {
      Candidate(kept, harness, id) && forall other :: Candidate(kept, harness, other) ==> NotOlder(kept, id, other)
    }

    ghost predicate Fits(kept: map<string, Backup>, d: Directory, harness: string, id: string) {
      && Candidate(kept, harness, id) && Bounded(d, SavedNames(kept[id].files)) && Undisturbed(theirs, d, kept[id].files)
    }

    /** `listBackups`, for its first entry. */
    method FindNewest(harness: string) returns (r: Option<string>)
      ensures r.Some? ==> Newest(backups, harness, r.value)
      ensures r.None? ==> forall id :: !Candidate(backups, harness, id)
    {
      hide Readable, Rank;
      r := None;
      var left := backups.Keys;
      while left != {}
        invariant left <= backups.Keys
        invariant r.Some? ==> Candidate(backups, harness, r.value)
        invariant r.Some? ==> forall id :: Candidate(backups, harness, id) && id !in left ==> NotOlder(backups, r.value, id)
        invariant r.None? ==> forall id :: Candidate(backups, harness, id) ==> id in left
        decreases |left|
      {
        var id :| id in left;
        left := left - {id};
        var readable := CheckBackup(backups[id]);
        if readable && backups[id].harness == harness && (r.None? || NotOlder(backups, id, r.value)) { r := Some(id); }
      }
    }

    /** `Restore` of a named backup, or of the newest. The present files are saved first, under `safety`. */
    method Restore(harness: string, id: string, now: string, safety: string) returns (ok: bool, from: string)
      requires |now| <= 30 && safety !in backups
      modifies this
      ensures old(Valid()) ==> Valid()
      ensures if id != "" then from == id else ok ==> Newest(old(backups), harness, from)
      // when nothing fails, exactly a readable backup of the harness is restored, over files as `Receive` takes them
      ensures smooth ==> (ok <==> Fits(old(backups), old(files), harness, from))
      ensures ok ==> from in old(backups) && safety in backups && backups == old(backups)[safety := backups[safety]]
      ensures ok ==> backups[from].harness == harness == backups[safety].harness
      ensures ok ==> HoldAll(files, backups[from].files)
      ensures ok ==> Restorable(backups[safety].files, SavedNames(backups[from].files), old(files))
      // nothing else was touched, and nobody else's change was overwritten
      ensures forall name :: (from in old(backups) && name in SavedNames(old(backups)[from].files)) || SameAt(old(files), files, name)
      ensures ok ==> Undisturbed(theirs, old(files), backups[from].files)
      // or every file is as it was, or as somebody else left it; or, if putting it back may fail, as the backup has it
      ensures !ok && !flaky ==> forall name :: SameAt(old(files), files, name) || LeftAt(theirs, files, name)
      ensures !ok ==> forall name ::
        SameAt(old(files), files, name) || LeftAt(theirs, files, name)
        || (from in old(backups) && Replaced(old(files), files, old(backups)[from].files, name))
    {
      hide Names, Encode, Total, Saveable, OnlyAt, Undisturbed, Replaced;
      var allowed := Authorize();
      from := id;
      if !allowed || Names(harness) == [] { return false, from; }
      if id == "" {
        var newest := FindNewest(harness);
        if newest.None? { return false, from; }
        from := newest.value;
      }
      if from !in backups { return false, from; }
      var b := backups[from];
      var readable := CheckBackup(b);
      if !readable || b.harness != harness { return false, from; }
      var names := SavedNames(b.files);
      var previous := Snapshot(names, true);
      if previous.Err? { return false, from; }
      var saved := SaveBackup(Backup(now, harness, previous.value), safety);
      if !saved { return false, from; }
      ghost var d0 := files;
      assert SavedNames(previous.value) == names;
      ok := ReplaceAll(previous.value, b.files);
      OnlyNamed(d0, files, b.files);
    }

    /** A restore followed by a restore of its own safety backup changes nothing. */
    method RestoreAndUndo(harness: string, id: string, now: string, first: string, second: string) returns (ok: bool)
      requires |now| <= 30 && first !in backups && second !in backups && second != first && first != ""
      modifies this
      ensures ok ==> files == old(files)
    {
      ghost var d0 := files;
      var from, again;
      ok, from := Restore(harness, id, now, first);
      if !ok { return; }
      ghost var d1, wanted, saved := files, backups[from].files, backups[first].files;
      ok, again := Restore(harness, first, now, second);
      if ok { SafetyUndoes(d0, d1, files, wanted, saved); }
    }
  }

  /** Identifiers are all of one length, and compare as strings as these numbers do. */
  function Rank(id: string): nat {
    if id == [] then 0 else Rank(id[..|id| - 1]) * 0x11_0000 + id[|id| - 1] as int
  }

  function BundleNames(b: Bundle): (names: seq<string>)
    ensures |names| == |b.files| && forall i :: 0 <= i < |names| ==> names[i] == b.files[i].name
  {
    seq(|b.files|, i requires 0 <= i < |b.files| => b.files[i].name)
  }

  function SavedNames(fs: seq<SavedFile>): (names: seq<string>)
    ensures |names| == |fs| && forall i :: 0 <= i < |names| ==> names[i] == fs[i].name
  {
    seq(|fs|, i requires 0 <= i < |fs| => fs[i].name)
  }

  /** `saved` lists exactly these files, as they are in `dir`. */
  predicate Restorable(saved: seq<SavedFile>, names: seq<string>, dir: Directory) {
    SavedNames(saved) == names && HoldAll(dir, saved)
  }

  /** Whatever somebody else did to these files left them as they were. */
  predicate Undisturbed(theirs: map<string, Option<Bytes>>, d: Directory, fs: seq<SavedFile>) {
    forall i :: 0 <= i < |fs| && fs[i].name in theirs ==> LeftAt(theirs, d, fs[i].name)
  }

  /** The file is as it was, or as `fs` has it. */
  predicate Replaced(d: Directory, d': Directory, fs: seq<SavedFile>, name: string) {
    SameAt(d, d', name) || exists i :: 0 <= i < |fs| && fs[i].name == name && Holds(d', fs[i])
  }

  /** The file holds its bytes of the bundle. */
  predicate Installed(b: Bundle, d: Directory, name: string) {
    name in d && exists i :: 0 <= i < |b.files| && b.files[i].name == name && b.files[i].data == d[name]
  }

  /** The bundle's files, as they are to be. */
  function Wanted(b: Bundle): (fs: seq<SavedFile>)
    ensures |fs| == |b.files| && forall i :: 0 <= i < |fs| ==> fs[i] == SavedFile(b.files[i].name, true, b.files[i].data)
    ensures SavedNames(fs) == BundleNames(b)
  {
    seq(|b.files|, i requires 0 <= i < |b.files| => SavedFile(b.files[i].name, true, b.files[i].data))
  }

  lemma AllInstalled(theirs: map<string, Option<Bytes>>, b: Bundle, d0: Directory, d: Directory)
    requires HoldAll(d, Wanted(b)) && Undisturbed(theirs, d0, Wanted(b))
    ensures forall i :: 0 <= i < |b.files| ==> b.files[i].name in d && d[b.files[i].name] == b.files[i].data
    ensures forall name :: name in BundleNames(b) && name in theirs ==> LeftAt(theirs, d0, name)
  {
    forall i | 0 <= i < |b.files| ensures b.files[i].name in d && d[b.files[i].name] == b.files[i].data {
      assert Holds(d, Wanted(b)[i]);
    }
    forall name | name in BundleNames(b) && name in theirs ensures LeftAt(theirs, d0, name) {
      var k :| 0 <= k < |b.files| && BundleNames(b)[k] == name;
      assert Wanted(b)[k].name == name;
    }
  }

  lemma SomeInstalled(theirs: map<string, Option<Bytes>>, b: Bundle, d0: Directory, d: Directory)
    requires forall name :: Replaced(d0, d, Wanted(b), name) || LeftAt(theirs, d, name)
    ensures forall name :: SameAt(d0, d, name) || LeftAt(theirs, d, name) || Installed(b, d, name)
  {
    forall name | !SameAt(d0, d, name) && !LeftAt(theirs, d, name) ensures Installed(b, d, name) {
      assert Replaced(d0, d, Wanted(b), name);
      var k :| 0 <= k < |b.files| && Wanted(b)[k].name == name && Holds(d, Wanted(b)[k]);
      assert b.files[k].name == name;
    }
  }

  lemma OnlyNamed(d: Directory, d': Directory, fs: seq<SavedFile>)
    requires OnlyAt(d, d', fs)
    ensures forall name :: name in SavedNames(fs) || SameAt(d, d', name)
  {
    forall name | name !in SavedNames(fs) ensures SameAt(d, d', name) {
      forall i | 0 <= i < |fs| ensures fs[i].name != name { assert SavedNames(fs)[i] == fs[i].name; }
    }
  }

  lemma Named(fs: seq<SavedFile>, gs: seq<SavedFile>, n: nat)
    requires SavedNames(fs) == SavedNames(gs) && n <= |fs|
    ensures |fs| == |gs| && forall k :: 0 <= k < |fs| ==> fs[k].name == gs[k].name
    ensures SavedNames(fs[..n]) == SavedNames(gs[..n])
  {
    assert forall k :: 0 <= k < |fs| ==> SavedNames(fs)[k] == fs[k].name && SavedNames(gs)[k] == gs[k].name;
  }

  /** What a rollback of the first `n` files makes of one name. */
  lemma BackedAt(d0: Directory, d: Directory, d': Directory, previous: seq<SavedFile>, wanted: seq<SavedFile>, n: nat, flaky: bool, name: string)
    requires n <= |wanted| && SavedNames(wanted) == SavedNames(previous) && HoldAll(d0, previous)
    requires OnlyAt(d, d', previous[..n]) && OnlyRestored(d, d', previous[..n]) && (!flaky ==> HoldAll(d', previous[..n]))
    requires Replaced(d0, d, wanted, name) && (name in SavedNames(wanted[..n]) || SameAt(d0, d, name))
    ensures Replaced(d0, d', wanted, name) && (!flaky ==> SameAt(d0, d', name))
  {
    Named(wanted, previous, n);
    if name in SavedNames(previous[..n]) {
      var k :| 0 <= k < n && previous[..n][k].name == name;
      assert Holds(d0, previous[k]);
      if !flaky {
        assert Holds(d', previous[..n][k]);
      } else if !SameAt(d, d', name) {
        var j :| 0 <= j < |previous[..n]| && previous[..n][j].name == name && Holds(d', previous[..n][j]);
        assert Holds(d0, previous[j]);
      } else if !SameAt(d0, d, name) {
        var j :| 0 <= j < |wanted| && wanted[j].name == name && Holds(d, wanted[j]);
        assert Holds(d', wanted[j]);
      }
    } else {
      OnlyNamed(d, d', previous[..n]);
    }
  }

  /** Behind a rollback of the first `n` files. */
  lemma BackedOut(d0: Directory, d: Directory, d': Directory, previous: seq<SavedFile>, wanted: seq<SavedFile>, n: nat, flaky: bool)
    requires n <= |wanted| && SavedNames(wanted) == SavedNames(previous) && HoldAll(d0, previous)
    requires OnlyAt(d0, d, wanted[..n]) && forall name :: Replaced(d0, d, wanted, name)
    requires OnlyAt(d, d', previous[..n]) && OnlyRestored(d, d', previous[..n]) && (!flaky ==> HoldAll(d', previous[..n]))
    ensures OnlyAt(d0, d', wanted)
    ensures forall name :: Replaced(d0, d', wanted, name)
    ensures !flaky ==> forall name :: SameAt(d0, d', name)
  {
    OnlyNamed(d0, d, wanted[..n]);
    forall name ensures Replaced(d0, d', wanted, name) && (!flaky ==> SameAt(d0, d', name)) {
      BackedAt(d0, d, d', previous, wanted, n, flaky, name);
    }
    ReplacedOnly(d0, d', wanted);
  }

  lemma ReplacedOnly(d: Directory, d': Directory, fs: seq<SavedFile>)
    requires forall name :: name in SavedNames(fs) || Replaced(d, d', fs, name)
    ensures OnlyAt(d, d', fs)
  {
    forall name | forall i :: 0 <= i < |fs| ==> fs[i].name != name ensures SameAt(d, d', name) {
      assert name !in SavedNames(fs);
      assert Replaced(d, d', fs, name);
    }
  }

  /** The first `n` files are as wanted and the others as they were. */
  lemma PartlyReplaced(d0: Directory, d: Directory, wanted: seq<SavedFile>, n: nat)
    requires n <= |wanted| && OnlyAt(d0, d, wanted[..n]) && HoldAll(d, wanted[..n])
    ensures forall name :: Replaced(d0, d, wanted, name)
  {
    OnlyNamed(d0, d, wanted[..n]);
    forall name ensures Replaced(d0, d, wanted, name) {
      if name in SavedNames(wanted[..n]) {
        var k :| 0 <= k < n && wanted[..n][k].name == name;
        assert Holds(d, wanted[..n][k]) && Holds(d, wanted[k]);
      }
    }
  }

  /** Somebody else changed file `i`, or it could not be read: those before it are put back and it is left alone. */
  lemma Refused(theirs: map<string, Option<Bytes>>, d0: Directory, d: Directory, d1: Directory, d': Directory,
                previous: seq<SavedFile>, wanted: seq<SavedFile>, i: nat, flaky: bool)
    requires i < |wanted| && SavedNames(wanted) == SavedNames(previous) && HoldAll(d0, previous) && DistinctNames(previous)
    requires OnlyAt(d0, d, wanted[..i]) && HoldAll(d, wanted[..i])
    requires (wanted[i].name in theirs ==> LeftAt(theirs, d1, wanted[i].name)) && (wanted[i].name !in theirs ==> d1 == d)
    requires forall n :: n != wanted[i].name ==> SameAt(d, d1, n)
    requires OnlyAt(d1, d', previous[..i]) && OnlyRestored(d1, d', previous[..i]) && (!flaky ==> HoldAll(d', previous[..i]))
    ensures OnlyAt(d0, d', wanted)
    ensures forall name :: Replaced(d0, d', wanted, name) || LeftAt(theirs, d', name)
    ensures !flaky ==> forall name :: SameAt(d0, d', name) || LeftAt(theirs, d', name)
  {
    Named(wanted, previous, i);
    PartlyReplaced(d0, d, wanted, i);
    OnlyNamed(d0, d, wanted[..i]);
    OnlyNamed(d1, d', previous[..i]);
    assert wanted[i].name !in SavedNames(previous[..i]) by { assert forall k :: 0 <= k < i ==> previous[k].name != previous[i].name; }
    forall name ensures (Replaced(d0, d', wanted, name) && (!flaky ==> SameAt(d0, d', name))) || (name == wanted[i].name && LeftAt(theirs, d', name)) {
      if name != wanted[i].name || name !in theirs {
        assert SameAt(d, d1, name) && Replaced(d0, d, wanted, name);
        ReplacedSame(d0, d, d1, wanted, name);
        BackedAt(d0, d1, d', previous, wanted, i, flaky, name);
      } else {
        assert SameAt(d1, d', name);
      }
    }
    assert wanted[i].name in SavedNames(wanted) by { assert SavedNames(wanted)[i] == wanted[i].name; }
    ReplacedOnly(d0, d', wanted);
  }

  lemma ReplacedSame(d0: Directory, d: Directory, d1: Directory, wanted: seq<SavedFile>, name: string)
    requires Replaced(d0, d, wanted, name) && SameAt(d, d1, name)
    ensures Replaced(d0, d1, wanted, name)
  {
    if !SameAt(d0, d, name) {
      var k :| 0 <= k < |wanted| && wanted[k].name == name && Holds(d, wanted[k]);
      assert Holds(d1, wanted[k]);
    }
  }

  /** Nobody has really changed file `i`. */
  lemma StillAsFound(theirs: map<string, Option<Bytes>>, d0: Directory, d: Directory, d1: Directory, previous: seq<SavedFile>, wanted: seq<SavedFile>, i: nat)
    requires i < |wanted| == |previous| && SavedNames(wanted) == SavedNames(previous) && HoldAll(d0, previous) && DistinctNames(previous)
    requires OnlyAt(d0, d, wanted[..i]) && Undisturbed(theirs, d0, wanted)
    requires (wanted[i].name in theirs ==> LeftAt(theirs, d1, wanted[i].name)) && (wanted[i].name !in theirs ==> d1 == d)
    ensures Holds(d1, previous[i])
  {
    Named(wanted, previous, i);
    assert Holds(d0, previous[i]);
    if wanted[i].name !in theirs {
      assert forall k :: 0 <= k < |wanted[..i]| ==> wanted[..i][k].name != wanted[i].name by {
        assert forall k :: 0 <= k < i ==> previous[k].name != previous[i].name;
      }
      assert SameAt(d0, d, wanted[i].name);
    }
  }

  /** File `i` is still what the snapshot found, whatever somebody else did to it. */
  lemma Checked(theirs: map<string, Option<Bytes>>, d0: Directory, d: Directory, d1: Directory, previous: seq<SavedFile>, wanted: seq<SavedFile>, i: nat)
    requires i < |wanted| && SavedNames(wanted) == SavedNames(previous) && HoldAll(d0, previous) && DistinctNames(previous)
    requires OnlyAt(d0, d, wanted[..i]) && HoldAll(d, wanted[..i]) && Undisturbed(theirs, d0, wanted[..i])
    requires wanted[i].name in theirs ==> LeftAt(theirs, d1, wanted[i].name)
    requires forall n :: n != wanted[i].name ==> SameAt(d, d1, n)
    requires |previous| == |wanted| && Holds(d1, previous[i])
    ensures OnlyAt(d0, d1, wanted[..i]) && HoldAll(d1, wanted[..i]) && Undisturbed(theirs, d0, wanted[..i + 1])
  {
    Named(wanted, previous, i);
    assert Holds(d0, previous[i]) && SameAt(d0, d1, wanted[i].name);
    assert wanted[..i + 1] == wanted[..i] + [wanted[i]];
    forall k | 0 <= k < i ensures Holds(d1, wanted[..i][k]) {
      assert previous[k].name != previous[i].name;
      assert Holds(d, wanted[..i][k]) && SameAt(d, d1, wanted[k].name);
    }
    forall name | forall k :: 0 <= k < |wanted[..i]| ==> wanted[..i][k].name != name ensures SameAt(d0, d1, name) {
      if name != wanted[i].name { assert SameAt(d0, d, name) && SameAt(d, d1, name); }
    }
  }

  /** File `i` is written, or the write has left it as it was. */
  lemma Replacing(d0: Directory, d1: Directory, d2: Directory, previous: seq<SavedFile>, wanted: seq<SavedFile>, i: nat)
    requires i < |wanted| && SavedNames(wanted) == SavedNames(previous) && DistinctNames(previous)
    requires OnlyAt(d0, d1, wanted[..i]) && HoldAll(d1, wanted[..i])
    requires (d2 == d1 || Holds(d2, wanted[i])) && forall n :: n != wanted[i].name ==> SameAt(d1, d2, n)
    ensures OnlyAt(d0, d2, wanted[..i + 1]) && OnlyAt(d0, d2, wanted) && forall name :: Replaced(d0, d2, wanted, name)
    ensures Holds(d2, wanted[i]) ==> HoldAll(d2, wanted[..i + 1])
  {
    Named(wanted, previous, i);
    PartlyReplaced(d0, d1, wanted, i);
    assert wanted[..i + 1] == wanted[..i] + [wanted[i]];
    forall k | 0 <= k < i ensures Holds(d2, wanted[k]) {
      assert previous[k].name != previous[i].name;
      assert Holds(d1, wanted[..i][k]) && SameAt(d1, d2, wanted[k].name);
    }
    forall name ensures Replaced(d0, d2, wanted, name) {
      if name == wanted[i].name {
        if d2 != d1 { assert Holds(d2, wanted[i]); }
      } else {
        assert SameAt(d1, d2, name);
        ReplacedSame(d0, d1, d2, wanted, name);
      }
    }
    ReplacedOnly(d0, d2, wanted);
    var part := wanted[..i + 1];
    forall name | forall k :: 0 <= k < |part| ==> part[k].name != name ensures SameAt(d0, d2, name) {
      assert part[i] == wanted[i];
      forall k | 0 <= k < |wanted[..i]| ensures wanted[..i][k].name != name { assert part[k] == wanted[..i][k]; }
      assert SameAt(d0, d1, name) && SameAt(d1, d2, name);
    }
  }

  lemma SafetyUndoes(d0: Directory, d1: Directory, d2: Directory, wanted: seq<SavedFile>, saved: seq<SavedFile>)
    requires forall name :: name in SavedNames(wanted) || SameAt(d0, d1, name)
    requires Restorable(saved, SavedNames(wanted), d0)
    requires forall name :: name in SavedNames(saved) || SameAt(d1, d2, name)
    requires HoldAll(d2, saved)
    ensures d2 == d0
  {
    forall name ensures SameAt(d0, d2, name) {
      if name in SavedNames(saved) {
        var k :| 0 <= k < |saved| && saved[k].name == name;
        assert Holds(d0, saved[k]) && Holds(d2, saved[k]);
      } else {
        assert SameAt(d0, d1, name) && SameAt(d1, d2, name);
      }
    }
    assert forall name :: name in d0 <==> name in d2 by {
      forall name ensures name in d0 <==> name in d2 { assert SameAt(d0, d2, name); }
    }
    forall name | name in d0 ensures d0[name] == d2[name] { assert SameAt(d0, d2, name); }
  }
}
