/**
 The rotating log writer: names point to inodes, one descriptor stays open, and a rotation cascades
 the rotated files, sweeps leftovers of a larger `keep`, moves the active log aside and reopens it.
 */
module LogRotation {
  import opened Basics

  /** The active log and its rotated siblings "<path>.<n>". */
  datatype Name = Active | Slot(n: nat)

  type Directory = map<Name, nat>
  type Inodes = map<nat, Bytes>

  function Text(dir: Directory, data: Inodes, name: Name): Bytes {
    if name in dir && dir[name] in data then data[dir[name]] else []
  }

  /** Slots `n` down to 1, oldest first. */
  function SlotText(dir: Directory, data: Inodes, n: nat): Bytes {
    if n == 0 then [] else Text(dir, data, Slot(n)) + SlotText(dir, data, n - 1)
  }

  /** No slot above `top` exists. */
  ghost predicate Bounds(top: nat, dir: Directory) {
    forall n: nat :: Slot(n) in dir ==> n <= top
  }

  /** Everything still on disk, oldest byte first. */
  function History(dir: Directory, data: Inodes, top: nat): Bytes {
    SlotText(dir, data, top) + Text(dir, data, Active)
  }

  predicate IsSuffix(s: Bytes, whole: Bytes) {
    |s| <= |whole| && whole[|whole| - |s|..] == s
  }

  /** The names are different files, and all of them exist. */
  predicate Sound(dir: Directory, data: Inodes, next: nat) {
    && (forall a, b :: a in dir && b in dir && a != b ==> dir[a] != dir[b])
    && (forall a :: a in dir ==> dir[a] in data && dir[a] < next)
    && (forall i :: i in data ==> i < next)
  }

  /** The first slot above `keep` that does not exist; the sweep stops there. */
  ghost predicate FirstGap(dir: Directory, keep: nat, gap: nat) {
    gap > keep && Slot(gap) !in dir && forall n :: keep < n < gap ==> Slot(n) in dir
  }

  /** Leftovers above `keep` have no gap, so the sweep reaches all of them. */
  ghost predicate Tidy(dir: Directory, keep: nat) {
    forall gap: nat, n: nat :: FirstGap(dir, keep, gap) && n > gap ==> Slot(n) !in dir
  }

  /** A rotation loses nothing from the middle: the sweep reaches every leftover, or nothing is dropped at all. */
  ghost predicate Safe(dir: Directory, keep: nat) {
    || Tidy(dir, keep)
    || (Slot(keep) !in dir && Slot(keep + 1) !in dir)
  }

  /** Where the names point after slots were cascaded and swept: `gap` is where the sweep stopped. */
  ghost predicate Cascaded(d0: Directory, d1: Directory, keep: nat, gap: nat) {
    && FirstGap(d0, keep, gap)
    && (Active in d1 <==> Active in d0) && (Active in d1 ==> d1[Active] == d0[Active])
    && (forall n :: 2 <= n <= keep ==> SameEntry(d0, Slot(n - 1), d1, Slot(n)))
    && (keep > 0 ==> Slot(1) !in d1)
    && (forall n :: keep < n <= gap ==> Slot(n) !in d1)
    && (forall n :: n > gap ==> SameEntry(d0, Slot(n), d1, Slot(n)))
  }

  /** One rotation of the names: a cascade, then the active log moved aside and a fresh one opened, unless that failed. */
  ghost predicate Rotates(d0: Directory, d1: Directory, keep: nat, ok: bool, inode: nat) {
    exists mid: Directory, gap: nat ::
      && Cascaded(d0, mid, keep, gap) && Active in mid
      && d1 == if ok then (mid - {Active})[Slot(1) := mid[Active]][Active := inode] else mid
  }

  /** With nothing to keep, the cascade is followed by the removal of the active log and a fresh one, unless that failed. */
  ghost predicate Discards(d0: Directory, d1: Directory, ok: bool, inode: nat) {
    exists mid: Directory, gap: nat ::
      Cascaded(d0, mid, 0, gap) && d1 == if ok then (mid - {Active})[Active := inode] else mid - {Active}
  }

  /** Nothing is due: rotation is off, the size is unknown, or the active log is below the limit. */
  predicate Quiet(dir: Directory, data: Inodes, maxSize: int, statFails: bool) {
    maxSize <= 0 || statFails || (Active in dir && |Text(dir, data, Active)| < maxSize)
  }

  /** What one tick does to the names: nothing while nothing is due, a reopen if the log is gone, and otherwise one rotation. */
  ghost predicate Ticks(d0: Directory, data0: Inodes, d1: Directory, maxSize: int, keep: nat, statFails: bool, openFails: bool, inode: nat) {
    if Quiet(d0, data0, maxSize, statFails) then d1 == d0
    else if Active !in d0 then d1 == if openFails then d0 else d0[Active := inode]
    else if keep == 0 then Discards(d0, d1, !openFails, inode)
    else Rotates(d0, d1, keep, !openFails, inode)
  }

  predicate SameEntry(d0: Directory, a: Name, d1: Directory, b: Name) {
    (a in d0 <==> b in d1) && (a in d0 ==> d0[a] == d1[b])
  }

  class RotatingWriter {
    var dir: Directory
    var data: Inodes
    var next: nat
    var fd: nat
    var maxSize: int
    var keep: nat

    ghost var top: nat
    ghost var written: Bytes

    ghost predicate Valid()
      reads this
    {
      && Sound(dir, data, next) && fd in data
      && Bounds(top, dir) && keep <= top && Slot(0) !in dir
    }

    /** The descriptor is the file at the active path, and the files hold the end of what was written. */
    ghost predicate Faithful()
      reads this
    {
      && Valid()
      && Active in dir && dir[Active] == fd
      && IsSuffix(History(dir, data, top), written)
    }

    /** Opens the log; what is already on disk counts as written. */
    constructor (dir: Directory, data: Inodes, next: nat, ghost top: nat, maxSize: int, keep: int)
      requires Sound(dir, data, next) && Bounds(top, dir) && keep <= top && Slot(0) !in dir
      ensures Faithful() && this.keep == (if keep < 0 then 0 else keep)
      ensures forall n :: SameEntry(dir, Slot(n), this.dir, Slot(n))
      ensures written == History(dir, data, top) && this.maxSize == maxSize
    {
      hide Sound, History, IsSuffix;
      SoundFresh(dir, data, next);
      FreshActive(dir, data, next, top);
      SuffixSelf(History(dir, data, top));
      this.maxSize, this.keep := maxSize, if keep < 0 then 0 else keep;
      if Active in dir {
        this.dir, this.data, this.next, fd := dir, data, next, dir[Active];
      } else {
        this.dir, this.data, this.next, fd := dir[Active := next], data[next := []], next + 1, next;
      }
      this.top, written := top, History(dir, data, top);
    }

    /** `Write`: appends through the open descriptor. */
    method Write(p: Bytes)
      requires Valid()
      modifies this`data, this`written
      ensures Valid() && written == old(written) + p
      ensures data == old(data)[fd := old(data)[fd] + p]
      ensures old(Faithful()) ==> Faithful()
    {
      hide Sound, History, IsSuffix, Bounds;
      SoundAppend(dir, data, next, fd, p);
      if Active in dir && dir[Active] == fd {
        AppendText(dir, data, next, fd, p, top);
        SuffixAppend(History(dir, data, top), written, p);
      }
      data := data[fd := data[fd] + p];
      written := written + p;
    }

    /** `Configure`. `top` only bounds the slots there are, so raising it changes nothing. */
    method Configure(maxSize: int, keep: int)
      requires Valid()
      modifies this`maxSize, this`keep, this`top
      ensures Valid() && this.maxSize == maxSize && this.keep == if keep < 0 then 0 else keep
      ensures old(Faithful()) ==> Faithful()
      ensures this.keep >= old(this.keep) && old(Tidy(dir, this.keep)) ==> Tidy(dir, this.keep)
    {
      hide Sound, Tidy, IsSuffix;
      ghost var kept, was := this.keep, top;
      this.maxSize := maxSize;
      this.keep := if keep < 0 then 0 else keep;
      if this.keep > top { top := this.keep; }
      RaisedTop(dir, data, was, top);
      if this.keep >= kept && Tidy(dir, kept) { RaisedKeep(dir, kept, this.keep); }
    }

    /** `rotate`, where opening a fresh file may fail. The result says whether one was opened. */
    method Rotate(openFails: bool) returns (ok: bool)
      requires Valid()
      modifies this`dir, this`data, this`next, this`fd
      ensures Valid()
      ensures keep >= 1 && old(Faithful()) ==> Active in dir && dir[Active] == fd
      ensures keep >= 1 && old(Faithful() && Safe(dir, keep)) ==> Faithful()
      ensures old(Tidy(dir, keep)) ==> Tidy(dir, keep)
      ensures keep >= 1 && Active in old(dir) ==> Rotates(old(dir), dir, keep, ok, fd) && ok == !openFails
      ensures keep == 0 ==> Discards(old(dir), dir, ok, fd) && ok == !openFails
      ensures ok ==> fd == old(next) && data == old(data)[fd := []]
      ensures !ok ==> fd == old(fd) && data == old(data)
    {
      hide Sound, History, SlotText;
      ghost var d0, data0 := dir, data;
      ghost var gap := Cascade();
      ghost var d1 := dir;
      if keep >= 1 {
        if Active !in dir {
          TidyAfter(d0, d1, dir, keep, gap);
          return false;
        }
        SoundMove(dir, Active, Slot(1), data, next);
        dir := (dir - {Active})[Slot(1) := dir[Active]];
      } else {
        SoundSubset(dir, dir - {Active}, data, next);
        dir := dir - {Active};
      }
      ghost var d2, next2 := dir, next;
      ok := Reopen(openFails);
      if !ok && keep >= 1 {
        SoundMove(dir, Slot(1), Active, data, next);
        dir := (dir - {Slot(1)})[Active := dir[Slot(1)]];
        assert dir == d1;
      }
      TidyAfter(d0, d1, dir, keep, gap);
      if keep >= 1 && Safe(d0, keep) && Active in d0 {
        HistoryKept(d0, d1, data0, keep, gap, top);
        MovedAside(d1, data0, top);
        FreshActive(d2, data0, next2, top);
        SuffixTransitive(History(dir, data, top), History(d0, data0, top), written);
      }
    }

    /** `MaybeRotate`: the stat call and opening a file may fail. */
    method MaybeRotate(statFails: bool, openFails: bool) returns (ok: bool)
      requires Valid()
      modifies this`dir, this`data, this`next, this`fd
      ensures Valid()
      ensures keep >= 1 && old(Faithful()) ==> Active in dir && dir[Active] == fd
      ensures keep >= 1 && old(Faithful() && Safe(dir, keep)) ==> Faithful()
      ensures old(Tidy(dir, keep)) ==> Tidy(dir, keep)
      ensures Ticks(old(dir), old(data), dir, maxSize, keep, statFails, openFails, fd)
      ensures old(Quiet(dir, data, maxSize, statFails)) ==> data == old(data) && fd == old(fd)
      ensures ok <==> old(maxSize <= 0 || (!statFails && (Quiet(dir, data, maxSize, false) || !openFails)))
    {
      hide Sound, Tidy, Safe, History;
      if maxSize <= 0 { return true; }
      if statFails { return false; }
      if Active !in dir {
        ghost var d0 := dir;
        ok := Reopen(openFails);
        TidySame(d0, dir, keep);
        return;
      }
      ActiveThere(dir, data, next);
      if |data[dir[Active]]| < maxSize { return true; }
      ok := Rotate(openFails);
    }

    /** `reopenLocked`: opens by path, creating the file if needed. */
    method Reopen(fails: bool) returns (ok: bool)
      requires Valid()
      modifies this`dir, this`data, this`next, this`fd
      ensures Valid()
      ensures ok == !fails
      ensures !ok ==> dir == old(dir) && data == old(data) && next == old(next) && fd == old(fd)
      ensures ok ==> Active in dir && dir[Active] == fd
      ensures ok && Active in old(dir) ==> dir == old(dir) && data == old(data)
      ensures ok && Active !in old(dir) ==> dir == old(dir)[Active := old(next)] && data == old(data)[old(next) := []]
    {
      hide Sound;
      SoundFresh(dir, data, next);
      ok := !fails;
      if ok {
        if Active in dir {
          fd := dir[Active];
        } else {
          dir, data, fd, next := dir[Active := next], data[next := []], next, next + 1;
        }
      }
    }

    /** Drops the last slot and shifts the others up, oldest first. */
    method Shift()
      requires Valid()
      modifies this`dir
      ensures Valid() && Shifted(old(dir), dir, keep, if keep == 0 then 0 else 1)
    {
      hide Sound;
      SoundSubset(dir, dir - {Slot(keep)}, data, next);
      dir := dir - {Slot(keep)};
      if keep >= 1 {
        for i := keep downto 1
          invariant Valid() && Shifted(old(dir), dir, keep, i)
        {
          ghost var d := dir;
          RenameSlot(i);
          ShiftStep(old(dir), d, dir, keep, i);
        }
      }
    }

    /** Moves slot `i` into the free slot above it. */
    method RenameSlot(i: nat)
      requires Valid() && 1 <= i < keep && Slot(i + 1) !in dir
      modifies this`dir
      ensures Valid()
      ensures Slot(i) !in dir && SameEntry(old(dir), Slot(i), dir, Slot(i + 1))
      ensures forall a :: a != Slot(i) && a != Slot(i + 1) ==> SameEntry(old(dir), a, dir, a)
    {
      hide Sound;
      if Slot(i) in dir {
        SoundMove(dir, Slot(i), Slot(i + 1), data, next);
        dir := (dir - {Slot(i)})[Slot(i + 1) := dir[Slot(i)]];
      }
    }

    /** Removes leftovers of a larger `keep`, up to the first missing slot. */
    method Sweep() returns (ghost gap: nat)
      requires Valid()
      modifies this`dir
      ensures Valid() && FirstGap(old(dir), keep, gap)
      ensures forall n: nat :: keep < n <= gap ==> Slot(n) !in dir
      ensures forall a: Name :: (a.Active? || a.n <= keep || a.n > gap) ==> SameEntry(old(dir), a, dir, a)
    {
      hide Sound;
      var n := keep + 1;
      while Slot(n) in dir
        invariant n > keep && Valid()
        invariant forall m: nat :: keep < m < n ==> Slot(m) !in dir && Slot(m) in old(dir)
        invariant forall a: Name :: (a.Active? || a.n <= keep || a.n >= n) ==> SameEntry(old(dir), a, dir, a)
        decreases |dir|
      {
        SoundSubset(dir, dir - {Slot(n)}, data, next);
        dir := dir - {Slot(n)};
        n := n + 1;
      }
      gap := n;
    }

    /** The slots' part of a rotation. */
    method Cascade() returns (ghost gap: nat)
      requires Valid()
      modifies this`dir
      ensures Cascaded(old(dir), dir, keep, gap) && Valid()
    {
      Shift();
      gap := Sweep();
    }
  }

  /** Slot `free` is empty, the slots above it up to `keep` have been shifted up by one, the others have not moved. */
  ghost predicate Shifted(d0: Directory, d1: Directory, keep: nat, free: nat) {
    && SameEntry(d0, Active, d1, Active)
    && Slot(free) !in d1
    && (forall n: nat :: free < n <= keep ==> SameEntry(d0, Slot(n - 1), d1, Slot(n)))
    && (forall n: nat :: 1 <= n < free || n > keep ==> SameEntry(d0, Slot(n), d1, Slot(n)))
  }

  lemma ShiftStep(d0: Directory, d: Directory, d': Directory, keep: nat, i: nat)
    requires 1 <= i < keep && Shifted(d0, d, keep, i + 1)
    requires Slot(i) !in d' && SameEntry(d, Slot(i), d', Slot(i + 1))
    requires forall a :: a != Slot(i) && a != Slot(i + 1) ==> SameEntry(d, a, d', a)
    ensures Shifted(d0, d', keep, i)
  {
    assert SameEntry(d, Active, d', Active);
    forall n: nat | i < n <= keep ensures SameEntry(d0, Slot(n - 1), d', Slot(n)) {
      if n == i + 1 { assert SameEntry(d0, Slot(i), d, Slot(i)); } else { assert SameEntry(d, Slot(n), d', Slot(n)); }
    }
    forall n: nat | 1 <= n < i || n > keep ensures SameEntry(d0, Slot(n), d', Slot(n)) {
      assert SameEntry(d, Slot(n), d', Slot(n));
    }
  }

  lemma SoundSubset(d: Directory, d': Directory, data: Inodes, next: nat)
    requires Sound(d, data, next) && forall a :: a in d' ==> a in d && d'[a] == d[a]
    ensures Sound(d', data, next)
  {
  }

  lemma SoundMove(d: Directory, a: Name, b: Name, data: Inodes, next: nat)
    requires Sound(d, data, next) && a in d && b !in d
    ensures Sound((d - {a})[b := d[a]], data, next)
  {
  }

  lemma SoundAppend(d: Directory, data: Inodes, next: nat, fd: nat, p: Bytes)
    requires Sound(d, data, next) && fd in data
    ensures Sound(d, data[fd := data[fd] + p], next)
  {
  }

  /** Bytes appended to the active log are appended to the history. */
  lemma AppendText(d: Directory, data: Inodes, next: nat, fd: nat, p: Bytes, top: nat)
    requires Sound(d, data, next) && fd in data && Active in d && d[Active] == fd
    ensures History(d, data[fd := data[fd] + p], top) == History(d, data, top) + p
  {
    hide SlotText;
    var more := data[fd := data[fd] + p];
    SlotsUnchanged(d, data, d, more, top);
    assert SlotText(d, data, top) + (data[fd] + p) == SlotText(d, data, top) + data[fd] + p;
  }

  lemma SuffixAppend(s: Bytes, whole: Bytes, p: Bytes)
    ensures IsSuffix(s, whole) ==> IsSuffix(s + p, whole + p)
  {
    if IsSuffix(s, whole) {
      assert (whole + p)[|whole| - |s|..] == whole[|whole| - |s|..] + p;
    }
  }

  lemma SuffixSelf(s: Bytes)
    ensures IsSuffix(s, s)
  {
    assert s[|s| - |s|..] == s;
  }

  lemma SoundFresh(d: Directory, data: Inodes, next: nat)
    requires Sound(d, data, next)
    ensures Active in d ==> d[Active] in data
    ensures Active !in d ==> Sound(d[Active := next], data[next := []], next + 1)
  {
  }

  lemma ActiveThere(d: Directory, data: Inodes, next: nat)
    requires Sound(d, data, next) && Active in d
    ensures d[Active] in data && Text(d, data, Active) == data[d[Active]]
  {
  }

  lemma {:induction false} SlotsUnchanged(d0: Directory, data0: Inodes, d1: Directory, data1: Inodes, n: nat)
    requires forall k :: 1 <= k <= n ==> Text(d0, data0, Slot(k)) == Text(d1, data1, Slot(k))
    ensures SlotText(d0, data0, n) == SlotText(d1, data1, n)
  {
    if n > 0 { SlotsUnchanged(d0, data0, d1, data1, n - 1); }
  }

  /** After a sweep that reached everything nothing above `keep` is left. */
  lemma TidyAfter(d0: Directory, d1: Directory, d2: Directory, keep: nat, gap: nat)
    requires Cascaded(d0, d1, keep, gap)
    requires forall n: nat :: n > keep && n > 1 ==> SameEntry(d1, Slot(n), d2, Slot(n))
    requires keep == 0 ==> SameEntry(d1, Slot(1), d2, Slot(1))
    ensures Tidy(d0, keep) ==> Tidy(d2, keep)
  {
    if Tidy(d0, keep) {
      forall n: nat | n > keep ensures Slot(n) !in d2 {
        assert SameEntry(d1, Slot(n), d2, Slot(n));
        if n > gap { assert SameEntry(d0, Slot(n), d1, Slot(n)); }
      }
    }
  }

  lemma TidySame(d: Directory, d': Directory, keep: nat)
    requires forall n: nat :: SameEntry(d, Slot(n), d', Slot(n))
    ensures Tidy(d, keep) ==> Tidy(d', keep)
  {
    forall n: nat ensures Slot(n) in d <==> Slot(n) in d' { assert SameEntry(d, Slot(n), d', Slot(n)); }
    forall gap: nat | FirstGap(d', keep, gap) ensures FirstGap(d, keep, gap) {}
  }

  /** Slots that do not exist hold nothing. */
  lemma RaisedTop(d: Directory, data: Inodes, was: nat, top: nat)
    requires Bounds(was, d) && was <= top
    ensures Bounds(top, d) && History(d, data, top) == History(d, data, was)
  {
    OnlyAbove(d, data, was, 0, top);
    assert [] + SlotText(d, data, was) == SlotText(d, data, was);
  }

  lemma {:induction false} SomeGap(d: Directory, keep: nat, bound: nat)
    requires keep < bound && Slot(bound) !in d
    ensures exists gap: nat :: gap <= bound && FirstGap(d, keep, gap)
    decreases bound - keep
  {
    if g: nat :| keep < g < bound && Slot(g) !in d {
      SomeGap(d, keep, g);
    } else {
      assert FirstGap(d, keep, bound);
    }
  }

  /** Leftovers without a gap stay so when more slots are kept. */
  lemma RaisedKeep(d: Directory, was: nat, keep: nat)
    requires Tidy(d, was) && was <= keep
    ensures Tidy(d, keep)
  {
    forall gap: nat, n: nat | FirstGap(d, keep, gap) && n > gap ensures Slot(n) !in d {
      SomeGap(d, was, gap);
      var g: nat :| g <= gap && FirstGap(d, was, g);
    }
  }

  datatype Event = Record(text: Bytes) | Tick(statFails: bool, openFails: bool) | Set(maxSize: int, keep: int)

  /** The policy in force behind some events. */
  function KeepAfter(keep: nat, events: seq<Event>): nat {
    if events == [] then keep
    else
      var e := events[|events| - 1];
      if e.Set? then (if e.keep < 0 then 0 else e.keep) else KeepAfter(keep, events[..|events| - 1])
  }

  function MaxAfter(maxSize: int, events: seq<Event>): int {
    if events == [] then maxSize
    else
      var e := events[|events| - 1];
      if e.Set? then e.maxSize else MaxAfter(maxSize, events[..|events| - 1])
  }

  /** The names before and behind one event, under the policy then in force. */
  ghost predicate Handled(e: Event, d0: Directory, data0: Inodes, d1: Directory, maxSize: int, keep: nat) {
    if e.Tick? then exists inode: nat :: Ticks(d0, data0, d1, maxSize, keep, e.statFails, e.openFails, inode) else d1 == d0
  }

  /** A change of policy that loses nothing: rotated files are kept, and `keep` is not lowered over a gap. */
  ghost predicate Harmless(e: Event, keep: int, dir: Directory) {
    e.Set? ==> e.keep >= 1 && (keep <= e.keep || Tidy(dir, e.keep))
  }

  /**
   Any run of writes, rotations and changes of policy: as long as every change is harmless, the files hold the end of
   everything written and the descriptor is the file at the active path, however often reopening fails. `dirs` are
   the names before each event and behind the last, `datas` the contents: a tick rotates exactly when the log is due.
   */
  method Drive(w: RotatingWriter, events: seq<Event>) returns (ghost steady: bool, ghost dirs: seq<Directory>, ghost datas: seq<Inodes>)
    requires Steady(w)
    modifies w`dir, w`data, w`next, w`fd, w`written, w`maxSize, w`keep, w`top
    ensures steady ==> w.Faithful()
    ensures Trail(events, |events|, dirs, datas, old(w.maxSize), old(w.keep))
    ensures dirs[0] == old(w.dir) && dirs[|events|] == w.dir && datas[0] == old(w.data) && datas[|events|] == w.data
    ensures steady <==> AllHarmless(events, |events|, dirs, old(w.keep))
    ensures w.written == old(w.written) + Records(events)
  {
    hide RotatingWriter.Valid, Tidy, Harmless, History, IsSuffix, Handled, Trail, AllHarmless, Steady, Records;
    steady, dirs, datas := true, [w.dir], [w.data];
    assert events[..0] == [];
    NoTrail(events, dirs, datas, w.maxSize, w.keep);
    NothingLeft(w.written, events);
    SteadyIsFaithful(w);
    for i := 0 to |events|
      invariant w.Valid() && (steady ==> Steady(w))
      invariant Trail(events, i, dirs, datas, old(w.maxSize), old(w.keep)) && (steady <==> AllHarmless(events, i, dirs, old(w.keep)))
      invariant |dirs| == |datas| == i + 1 && dirs[0] == old(w.dir) && dirs[i] == w.dir && datas[0] == old(w.data) && datas[i] == w.data
      invariant w.keep == KeepAfter(old(w.keep), events[..i]) && w.maxSize == MaxAfter(old(w.maxSize), events[..i])
      invariant w.written + Records(events[i..]) == old(w.written) + Records(events)
    {
      assert events[..i + 1][..i] == events[..i];
      OneMoreRecord(w.written, events, i);
      steady := steady && Harmless(events[i], w.keep, w.dir);
      Handle(w, events[i]);
      TrailMore(events, i, dirs, datas, w.dir, w.data, old(w.maxSize), old(w.keep));
      dirs, datas := dirs + [w.dir], datas + [w.data];
    }
    assert events[..|events|] == events;
    NothingLeft(w.written, events);
    if steady { SteadyIsFaithful(w); }
  }

  lemma OneMoreRecord(written: Bytes, events: seq<Event>, i: nat)
    requires i < |events|
    ensures written + Records(events[i..]) == written + (if events[i].Record? then events[i].text else []) + Records(events[i + 1..])
  {
    assert events[i..][0] == events[i] && events[i..][1..] == events[i + 1..];
  }

  lemma NothingLeft(written: Bytes, events: seq<Event>)
    ensures events[0..] == events && written + Records(events[|events|..]) == written
  {
  }

  /** Each of the first `n` events was handled as the policy in force says. */
  ghost predicate Trail(events: seq<Event>, n: nat, dirs: seq<Directory>, datas: seq<Inodes>, maxSize: int, keep: nat) {
    && n <= |events| && |dirs| == |datas| == n + 1
    && forall k :: 0 <= k < n ==> Handled(events[k], dirs[k], datas[k], dirs[k + 1], MaxAfter(maxSize, events[..k]), KeepAfter(keep, events[..k]))
  }

  ghost predicate AllHarmless(events: seq<Event>, n: nat, dirs: seq<Directory>, keep: nat) {
    n <= |events| && n < |dirs| && forall k :: 0 <= k < n ==> Harmless(events[k], KeepAfter(keep, events[..k]), dirs[k])
  }

  lemma NoTrail(events: seq<Event>, dirs: seq<Directory>, datas: seq<Inodes>, maxSize: int, keep: nat)
    requires |dirs| == |datas| == 1
    ensures Trail(events, 0, dirs, datas, maxSize, keep) && AllHarmless(events, 0, dirs, keep)
  {
  }

  lemma TrailMore(events: seq<Event>, n: nat, dirs: seq<Directory>, datas: seq<Inodes>, dir: Directory, data: Inodes, maxSize: int, keep: nat)
    requires n < |events| && Trail(events, n, dirs, datas, maxSize, keep)
    requires Handled(events[n], dirs[n], datas[n], dir, MaxAfter(maxSize, events[..n]), KeepAfter(keep, events[..n]))
    ensures Trail(events, n + 1, dirs + [dir], datas + [data], maxSize, keep)
    ensures AllHarmless(events, n + 1, dirs + [dir], keep) <==>
      AllHarmless(events, n, dirs, keep) && Harmless(events[n], KeepAfter(keep, events[..n]), dirs[n])
  {
    hide Handled, Harmless, MaxAfter, KeepAfter;
    var more := dirs + [dir];
    assert forall k :: 0 <= k <= n ==> more[k] == dirs[k];
    if AllHarmless(events, n + 1, more, keep) {
      forall k | 0 <= k < n ensures Harmless(events[k], KeepAfter(keep, events[..k]), dirs[k]) { assert more[k] == dirs[k]; }
      assert Harmless(events[n], KeepAfter(keep, events[..n]), more[n]);
    }
  }

  lemma SteadyIsFaithful(w: RotatingWriter)
    requires Steady(w)
    ensures w.Faithful()
  {
  }

  ghost predicate Steady(w: RotatingWriter)
    reads w
  {
    w.Faithful() && w.keep >= 1 && Tidy(w.dir, w.keep)
  }

  /** One event. */
  method Handle(w: RotatingWriter, e: Event)
    requires w.Valid()
    modifies w`dir, w`data, w`next, w`fd, w`written, w`maxSize, w`keep, w`top
    ensures w.Valid()
    ensures old(Steady(w) && Harmless(e, w.keep, w.dir)) ==> Steady(w)
    ensures w.keep == if e.Set? then (if e.keep < 0 then 0 else e.keep) else old(w.keep)
    ensures Handled(e, old(w.dir), old(w.data), w.dir, old(w.maxSize), old(w.keep))
    ensures w.maxSize == if e.Set? then e.maxSize else old(w.maxSize)
    ensures w.written == old(w.written) + if e.Record? then e.text else []
  {
    hide Tidy, IsSuffix, Bounds, History, Sound, Ticks;
    match e
    case Record(text) => w.Write(text);
    case Tick(statFails, openFails) => var _ := w.MaybeRotate(statFails, openFails);
    case Set(maxSize, keep) => w.Configure(maxSize, keep);
  }

  /** A run that only ever raises `keep` is steady. */
  lemma RaisingIsSteady(keep: nat, events: seq<Event>, dirs: seq<Directory>)
    requires |dirs| == |events| + 1
    requires forall i :: 0 <= i < |events| && events[i].Set? ==> events[i].keep >= 1 && KeepAfter(keep, events[..i]) <= events[i].keep
    ensures AllHarmless(events, |events|, dirs, keep)
  {
  }

  /** Everything the events write, in order. */
  function Records(events: seq<Event>): Bytes {
    if events == [] then [] else (if events[0].Record? then events[0].text else []) + Records(events[1..])
  }

  // ----- history -----

  lemma FreshActive(d: Directory, data: Inodes, next: nat, top: nat)
    requires Sound(d, data, next)
    ensures Active !in d ==> History(d[Active := next], data[next := []], top) == History(d, data, top)
  {
    SlotsUnchanged(d, data, d[Active := next], data[next := []], top);
  }

  /** The active log in slot 1 reads as it did behind the slots. */
  lemma MovedAside(d: Directory, data: Inodes, top: nat)
    requires Active in d && Slot(1) !in d && top >= 1
    ensures History((d - {Active})[Slot(1) := d[Active]], data, top) == History(d, data, top)
  {
    var d' := (d - {Active})[Slot(1) := d[Active]];
    SlotOne(d, d', data, top);
  }

  lemma {:induction false} SlotOne(d: Directory, d': Directory, data: Inodes, n: nat)
    requires n >= 1 && Slot(1) !in d
    requires forall k: nat :: k >= 2 ==> Text(d, data, Slot(k)) == Text(d', data, Slot(k))
    ensures SlotText(d', data, n) == SlotText(d, data, n) + Text(d', data, Slot(1))
  {
    if n == 1 {
      assert SlotText(d', data, 0) == [] && SlotText(d, data, 0) == [];
    } else {
      hide Text;
      SlotOne(d, d', data, n - 1);
      var t, rest, one := Text(d, data, Slot(n)), SlotText(d, data, n - 1), Text(d', data, Slot(1));
      assert (t + rest) + one == t + (rest + one);
    }
  }

  lemma SuffixTransitive(a: Bytes, b: Bytes, c: Bytes)
    requires IsSuffix(a, b)
    ensures IsSuffix(b, c) ==> IsSuffix(a, c)
  {
    if IsSuffix(b, c) { assert c[|c| - |a|..] == b[|b| - |a|..]; }
  }

  lemma {:induction false} SuffixOfTop(d: Directory, data: Inodes, k: nat, top: nat)
    requires k <= top
    ensures IsSuffix(SlotText(d, data, k), SlotText(d, data, top))
  {
    if k < top {
      SuffixOfTop(d, data, k, top - 1);
      var rest := SlotText(d, data, top - 1);
      assert IsSuffix(rest, SlotText(d, data, top));
      SuffixTransitive(SlotText(d, data, k), rest, SlotText(d, data, top));
    }
  }

  /** Above `k` only slot `n` holds anything. */
  lemma {:induction false} OnlyAbove(d: Directory, data: Inodes, k: nat, n: nat, top: nat)
    requires k <= top
    requires forall m: nat :: k < m <= top && m != n ==> Text(d, data, Slot(m)) == []
    ensures SlotText(d, data, top) == (if k < n <= top then Text(d, data, Slot(n)) else []) + SlotText(d, data, k)
  {
    if k < top { OnlyAbove(d, data, k, n, top - 1); }
  }

  lemma {:induction false} ShiftText(d0: Directory, d1: Directory, data: Inodes, keep: nat, gap: nat, m: nat)
    requires Cascaded(d0, d1, keep, gap) && 1 <= m <= keep
    ensures SlotText(d1, data, m) == SlotText(d0, data, m - 1)
  {
    if m == 1 {
      assert SlotText(d1, data, 0) == [];
    } else {
      ShiftText(d0, d1, data, keep, gap, m - 1);
      assert SameEntry(d0, Slot(m - 1), d1, Slot(m));
    }
  }

  lemma {:induction false} AboveSame(d0: Directory, d1: Directory, data: Inodes, k: nat, top: nat)
    requires k <= top && SlotText(d0, data, k) == SlotText(d1, data, k)
    requires forall m: nat :: k < m <= top ==> Text(d0, data, Slot(m)) == Text(d1, data, Slot(m))
    ensures SlotText(d0, data, top) == SlotText(d1, data, top)
  {
    if k < top { AboveSame(d0, d1, data, k, top - 1); }
  }

  /** A safe cascade keeps a suffix of what the slots held. */
  lemma SlotsKept(d0: Directory, d1: Directory, data: Inodes, keep: nat, gap: nat, top: nat)
    requires 1 <= keep <= top && Bounds(top, d0)
    requires Cascaded(d0, d1, keep, gap) && Safe(d0, keep)
    ensures IsSuffix(SlotText(d1, data, top), SlotText(d0, data, top))
  {
    hide SlotText, Cascaded, Safe, Tidy, Bounds, Text;
    ShiftText(d0, d1, data, keep, gap, keep);
    AboveKeep(d0, d1, data, keep, gap, top);
    if Tidy(d0, keep) {
      OnlyAbove(d1, data, keep, 0, top);
      SuffixOfTop(d0, data, keep - 1, top);
    } else {
      OnlyAbove(d0, data, keep - 1, 0, keep);
      AboveSame(d0, d1, data, keep, top);
    }
  }

  lemma AboveKeep(d0: Directory, d1: Directory, data: Inodes, keep: nat, gap: nat, top: nat)
    requires Cascaded(d0, d1, keep, gap) && Safe(d0, keep)
    ensures Tidy(d0, keep) ==> forall m: nat :: keep < m <= top ==> Text(d1, data, Slot(m)) == []
    ensures !Tidy(d0, keep) ==> Text(d0, data, Slot(keep)) == []
    ensures !Tidy(d0, keep) ==>
      forall m: nat :: keep < m <= top ==> Text(d0, data, Slot(m)) == Text(d1, data, Slot(m))
  {
    forall m: nat | keep < m <= top
      ensures Text(d1, data, Slot(m)) == (if m > gap then Text(d0, data, Slot(m)) else [])
      ensures Tidy(d0, keep) && m > gap ==> Slot(m) !in d0
      ensures !Tidy(d0, keep) && m <= gap ==> m == keep + 1
    {
      if m > gap { assert SameEntry(d0, Slot(m), d1, Slot(m)); }
    }
  }

  lemma HistoryKept(d0: Directory, d1: Directory, data: Inodes, keep: nat, gap: nat, top: nat)
    requires 1 <= keep <= top && Bounds(top, d0)
    requires Cascaded(d0, d1, keep, gap) && Safe(d0, keep)
    ensures IsSuffix(History(d1, data, top), History(d0, data, top))
  {
    hide SlotText;
    SlotsKept(d0, d1, data, keep, gap, top);
    var s0, s1, a := SlotText(d0, data, top), SlotText(d1, data, top), Text(d0, data, Active);
    assert (s0 + a)[|s0 + a| - |s1 + a|..] == s0[|s0| - |s1|..] + a;
  }

  function Marked(k: nat, i: nat, j: nat): Bytes {
    if k == i then [1] else if k == j then [0] else []
  }

  /**
   `Safe` is exact. A lowered `keep` over a gap (left by a failed reopen) makes the sweep stop early, so
   bytes go missing between an old leftover and the newer files: for some contents what is left is no suffix.
   */
  lemma UnsafeLoses(d0: Directory, d1: Directory, keep: nat, gap: nat, top: nat, next: nat) returns (data: Inodes)
    requires 1 <= keep <= top && Bounds(top, d0)
    requires forall a, b :: a in d0 && b in d0 && a != b ==> d0[a] != d0[b]
    requires forall a :: a in d0 ==> d0[a] < next
    requires Cascaded(d0, d1, keep, gap) && !Safe(d0, keep)
    ensures forall a :: a in d0 ==> d0[a] in data
    ensures !IsSuffix(History(d1, data, top), History(d0, data, top))
  {
    hide SlotText, IsSuffix;
    var lost: nat := if Slot(keep) in d0 then keep else keep + 1;
    var g: nat, old_: nat :| FirstGap(d0, keep, g) && old_ > g && Slot(old_) in d0;
    assert g == gap && Slot(lost) in d0;
    var i, j := d0[Slot(old_)], d0[Slot(lost)];
    data := map k: nat | 0 <= k < next :: Marked(k, i, j);
    MarkedTexts(d0, d1, keep, gap, next, lost, old_, data);
    assert SameEntry(d0, Slot(old_), d1, Slot(old_));
    OnlyAbove(d0, data, lost, old_, top);
    OnlyAbove(d0, data, 0, lost, lost);
    OnlyAbove(d1, data, 0, old_, top);
    NoSlots(d0, data);
    NoSlots(d1, data);
    assert History(d0, data, top) == [1, 0] && History(d1, data, top) == [1];
    OneIsNoSuffix();
  }

  lemma NoSlots(d: Directory, data: Inodes)
    ensures SlotText(d, data, 0) == []
  {
  }

  lemma OneIsNoSuffix()
    ensures !IsSuffix([1], [1, 0])
  {
  }

  lemma MarkedTexts(d0: Directory, d1: Directory, keep: nat, gap: nat, next: nat, lost: nat, old_: nat, data: Inodes)
    requires forall a, b :: a in d0 && b in d0 && a != b ==> d0[a] != d0[b]
    requires forall a :: a in d0 ==> d0[a] < next
    requires Cascaded(d0, d1, keep, gap) && keep >= 1 && keep <= lost <= keep + 1 && Slot(lost) in d0 && Slot(old_) in d0 && old_ > gap
    requires Slot(keep) in d0 ==> lost == keep
    requires data == map k: nat | 0 <= k < next :: Marked(k, d0[Slot(old_)], d0[Slot(lost)])
    ensures Text(d0, data, Slot(old_)) == [1] == Text(d1, data, Slot(old_)) && Text(d0, data, Slot(lost)) == [0]
    ensures forall n: nat :: n != lost && n != old_ ==> Text(d0, data, Slot(n)) == []
    ensures forall n: nat :: n >= 1 && n != old_ ==> Text(d1, data, Slot(n)) == []
    ensures Text(d0, data, Active) == [] && Text(d1, data, Active) == []
  {
    assert gap > keep && lost != old_;
    assert SameEntry(d0, Slot(old_), d1, Slot(old_));
    forall n: nat | n >= 1 && n != old_ ensures Text(d1, data, Slot(n)) == [] {
      if 2 <= n <= keep { assert SameEntry(d0, Slot(n - 1), d1, Slot(n)); }
      if n > gap { assert SameEntry(d0, Slot(n), d1, Slot(n)); }
    }
  }

  /** Names with the given slots. */
  ghost predicate Holds(d: Directory, slots: set<nat>) {
    Active in d && forall n: nat :: Slot(n) in d <==> n in slots
  }

  /**
   Four rotations with three files kept, the third of which cannot reopen the log, leave slots 1 and 3 with a gap between
   them. Lowering `keep` to 1 there is not safe.
   */
  lemma UnsafeReached(d0: Directory) returns (d1: Directory, d2: Directory, d3: Directory, d4: Directory)
    requires Holds(d0, {})
    ensures Rotates(d0, d1, 3, true, 1) && Rotates(d1, d2, 3, true, 2) && Rotates(d2, d3, 3, false, 2) && Rotates(d3, d4, 3, true, 3)
    ensures Holds(d4, {1, 3}) && !Safe(d4, 1) && Tidy(d4, 3)
  {
    var a := d0[Active];
    d1 := map[Active := 1, Slot(1) := a];
    d2 := map[Active := 2, Slot(1) := 1, Slot(2) := a];
    d3 := map[Active := 2, Slot(2) := 1, Slot(3) := a];
    d4 := map[Active := 3, Slot(1) := 2, Slot(3) := 1];
    hide Rotates, Cascaded;
    RotatesBy(d0, map[Active := a], d1, true, 1);
    RotatesBy(d1, map[Active := 1, Slot(2) := a], d2, true, 2);
    RotatesBy(d2, d3, d3, false, 2);
    RotatesBy(d3, map[Active := 2, Slot(3) := 1], d4, true, 3);
    assert FirstGap(d4, 1, 2);
  }

  lemma RotatesBy(d0: Directory, mid: Directory, d1: Directory, ok: bool, inode: nat)
    requires Active in d0 && Active in mid && mid[Active] == d0[Active]
    requires Slot(1) !in mid && SameEntry(d0, Slot(1), mid, Slot(2)) && SameEntry(d0, Slot(2), mid, Slot(3))
    requires forall n: nat :: n > 3 ==> Slot(n) !in d0 && Slot(n) !in mid
    requires d1 == if ok then (mid - {Active})[Slot(1) := mid[Active]][Active := inode] else mid
    ensures Rotates(d0, d1, 3, ok, inode)
  {
    assert FirstGap(d0, 3, 4);
    forall n | 2 <= n <= 3 ensures SameEntry(d0, Slot(n - 1), mid, Slot(n)) { }
    assert Cascaded(d0, mid, 3, 4);
  }
}
