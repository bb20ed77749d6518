// Advisory locks over whole runs: a request that was refused can only be granted after a step that
// released a lock, and every such step raises the wake flag and advances the generation.

module DescriptorLocks {
  import opened Basics
  import opened Descriptors
  import opened DescriptorRuns
  import opened DescriptorFork

  /** Every lock held before is still held. */
  ghost predicate LocksKept(a: Arena, b: Arena) {
    forall id :: id in a.descriptions && a.descriptions[id].lock.Some? ==>
      id in b.descriptions && b.descriptions[id].lock == a.descriptions[id].lock
  }

  /** `k` locks were released on the way from `a` to `b`. */
  ghost predicate Released(a: Arena, b: Arena, k: nat) {
    && b.generation == (a.generation + k) % TWO64
    && (if k == 0 then LocksKept(a, b) else b.locksChanged)
  }

  /** A change that releases at most one lock for every description it removes. */
  ghost predicate Removal(a: Arena, b: Arena, k: nat) {
    && Released(a, b, k) && k + |b.descriptions| <= |a.descriptions|
    && (a.locksChanged ==> b.locksChanged) && b.generation < TWO64
  }

  lemma RemovalAdds(a: Arena, b: Arena, c: Arena, j: nat, k: nat)
    requires Removal(a, b, j) && Removal(b, c, k)
    ensures Removal(a, c, j + k)
  {
    assert ((a.generation + j) % TWO64 + k) % TWO64 == (a.generation + (j + k)) % TWO64;
  }

  lemma RemovalNone(a: Arena)
    requires a.generation < TWO64
    ensures Removal(a, a, 0)
  {
  }

  lemma ReleaseRemoves(a: Arena, id: Id) returns (k: nat)
    requires a.generation < TWO64
    ensures Removal(a, Release(a, id).0, k)
  {
    hide Removal, Drop, WithReferences;
    k := 0;
    RemovalNone(a);
    if id in a.descriptions && a.descriptions[id].references > 0 {
      if a.descriptions[id].references == 1 {
        k := if a.descriptions[id].lock.Some? then 1 else 0;
        DropRemoves(a, id);
      } else {
        ReferencesOnly(a, id, a.descriptions[id].references - 1);
      }
    }
  }

  lemma DropRemoves(a: Arena, id: Id)
    requires a.generation < TWO64 && id in a.descriptions
    ensures Removal(a, Drop(a, id), if a.descriptions[id].lock.Some? then 1 else 0)
  {
    hide Drop;
    Dropped(a, id);
    DroppedLock(a, id);
    MapAdded(a.descriptions - {id}, id, a.descriptions[id]);
    assert (a.descriptions - {id})[id := a.descriptions[id]] == a.descriptions;
  }

  lemma DroppedLock(a: Arena, id: Id)
    requires id in a.descriptions
    ensures var b := Drop(a, id);
            if a.descriptions[id].lock.Some? then b.locksChanged && b.generation == (a.generation + 1) % TWO64
            else b.locksChanged == a.locksChanged && b.generation == a.generation
  {
  }

  lemma ReferencesOnly(a: Arena, id: Id, references: nat)
    requires id in a.descriptions && a.generation < TWO64
    ensures Removal(a, WithReferences(a, id, references), 0)
  {
    var b := WithReferences(a, id, references);
    assert b.descriptions.Keys == a.descriptions.Keys;
    assert |b.descriptions| == |b.descriptions.Keys| && |a.descriptions| == |a.descriptions.Keys|;
  }

  lemma {:induction false} ReleaseAllRemoves(a: Arena, ids: seq<Id>) returns (k: nat)
    requires a.generation < TWO64
    ensures Removal(a, ReleaseAll(a, ids), k)
    decreases |ids|
  {
    hide Release, Removal;
    if ids == [] {
      RemovalNone(a);
      k := 0;
    } else {
      var i := ReleaseRemoves(a, ids[0]);
      RemovalBounded(a, Release(a, ids[0]).0, i);
      var j := ReleaseAllRemoves(Release(a, ids[0]).0, ids[1..]);
      RemovalAdds(a, Release(a, ids[0]).0, ReleaseAll(a, ids), i, j);
      k := i + j;
    }
  }

  lemma RemovalBounded(a: Arena, b: Arena, k: nat)
    requires Removal(a, b, k)
    ensures b.generation < TWO64
  {
  }

  lemma RetainRemoves(a: Arena, id: Id)
    requires a.generation < TWO64
    ensures Removal(a, Retain(a, id).0, 0)
  {
    hide WithReferences, Removal;
    RemovalNone(a);
    if id in a.descriptions {
      ReferencesOnly(a, id, a.descriptions[id].references + 1);
    }
  }

  lemma InstallRemoves(a: Arena, t: Table, fd: Fd, id: Id) returns (k: nat)
    requires a.generation < TWO64
    ensures Removal(a, Install(a, t, fd, id).0, k)
  {
    hide Release, Removal, Retain;
    RetainRemoves(a, id);
    RemovalNone(a);
    k := 0;
    if fd >= 0 && fd in t.entries && Retain(a, id).1.Success? {
      var b := Retain(a, id).0;
      RemovalBounded(a, b, 0);
      k := ReleaseRemoves(b, t.entries[fd]);
      RemovalAdds(a, b, Release(b, t.entries[fd]).0, 0, k);
    }
  }

  lemma DiscardRemoves(a: Arena, id: Id) returns (k: nat)
    requires a.generation < TWO64
    ensures Removal(a, Discard(a, id).0, k)
  {
    hide Release, Removal, Retain;
    RetainRemoves(a, id);
    RemovalNone(a);
    k := 0;
    if id in a.descriptions && a.descriptions[id].references == 0 && Retain(a, id).1.Success? {
      var b := Retain(a, id).0;
      RemovalBounded(a, b, 0);
      k := ReleaseRemoves(b, id);
      RemovalAdds(a, b, Release(b, id).0, 0, k);
    }
  }

  /** A step either releases locks, fewer than could bring the generation round, and then raises the
      flag; or it keeps every lock. */
  ghost predicate Accounted(a: Arena, b: Arena, k: nat) {
    Released(a, b, k) && k < TWO64 && b.generation < TWO64
  }

  lemma RemovalAccounted(a: Arena, b: Arena, k: nat)
    requires Removal(a, b, k) && |a.descriptions| <= MAX_DESCRIPTIONS
    ensures Accounted(a, b, k)
  {
  }

  lemma LockAccounted(a: Arena, id: Id, inode: nat, mode: Option<Mode>) returns (k: nat)
    requires a.generation < TWO64
    ensures Accounted(a, SetLock(a, id, inode, mode).0, k)
  {
    var gone := id in a.descriptions && a.descriptions[id].lock.Some? && a.descriptions[id].lock != Wanted(inode, mode);
    k := if gone then 1 else 0;
  }

  lemma StepAccounted(w: World, e: Event) returns (k: nat)
    requires Sound(w) && w.arena.generation < TWO64
    ensures Accounted(w.arena, Step(w, e).arena, k)
  {
    hide Sound, Accounted, Removal, Release, ReleaseAll, Install, Discard, SetLock, Fork, Named, Retain, OpenPipe;
    var a := w.arena;
    SoundLimits(w);
    RemovalNone(a);
    RemovalAccounted(a, a, 0);
    k := 0;
    match e
    case Open(d) => KeepingAccounted(a, Allocate(a, d).0);
    case MakePipe(capacity) =>
      SoundWithin(w);
      PipedKeeps(a, capacity);
      PipeGeneration(a, capacity);
      KeepingAccounted(a, OpenPipe(a, capacity).0);
    case Forget(id) =>
      k := DiscardRemoves(a, id);
      RemovalAccounted(a, Discard(a, id).0, k);
    case Flags(_, _, _) =>
    case Forks(pid, child) =>
      ForkExactly(w, pid);
      PlusAccounted(a, multiset(Named(TableOf(w, pid).entries)));
    case Holds(id) =>
      RetainRemoves(a, id);
      RemovalAccounted(a, Retain(a, id).0, 0);
    case Drops(id) =>
      if id in w.handles {
        k := ReleaseRemoves(a, id);
        RemovalAccounted(a, Release(a, id).0, k);
      }
    case Locks(id, inode, mode) => k := LockAccounted(a, id, inode, mode);
    case TakesChanges => KeepingAccounted(a, a.(locksChanged := false));
    case Reads(id, maximum) => ReadAccounted(a, id, maximum);
    case Writes(id, bytes) => WriteAccounted(a, id, bytes);
    case Feeds(id, bytes) => HostAccounted(a, id, bytes);
    case Shuts(id) => HostAccounted(a, id, []);
    case Drains(id) => HostAccounted(a, id, []);
    case _ => k := TableAccounted(w, e);
  }

  /** The events that give up descriptors of a table. */
  lemma TableAccounted(w: World, e: Event) returns (k: nat)
    requires w.arena.generation < TWO64 && |w.arena.descriptions| <= MAX_DESCRIPTIONS
    requires e.Installs? || e.Dups? || e.Closes? || e.Execs? || e.Exits?
    ensures Accounted(w.arena, Step(w, e).arena, k)
  {
    hide Accounted, Removal, Release, ReleaseAll, Install, Named;
    var a, t := w.arena, TableOf(w, e.pid);
    RemovalNone(a);
    RemovalAccounted(a, a, 0);
    k := 0;
    match e
    case Installs(_, fd, id) =>
      k := InstallRemoves(a, t, fd, id);
      RemovalAccounted(a, Install(a, t, fd, id).0, k);
    case Dups(_, source, destination) =>
      if source in t.entries && source != destination {
        k := InstallRemoves(a, t, destination, t.entries[source]);
        RemovalAccounted(a, Install(a, t, destination, t.entries[source]).0, k);
      }
    case Closes(_, fd) =>
      if fd in t.entries {
        k := ReleaseRemoves(a, t.entries[fd]);
        RemovalAccounted(a, Release(a, t.entries[fd]).0, k);
      }
    case Execs(_) =>
      k := ReleaseAllRemoves(a, Named(Flagged(t)));
      RemovalAccounted(a, ReleaseAll(a, Named(Flagged(t))), k);
    case Exits(_) =>
      k := ReleaseAllRemoves(a, Named(t.entries));
      RemovalAccounted(a, ReleaseAll(a, Named(t.entries)), k);
  }

  lemma SoundLimits(w: World)
    requires Sound(w)
    ensures |w.arena.descriptions| <= MAX_DESCRIPTIONS && w.arena.nextId !in w.arena.descriptions
  {
    hide Counted, NoneDangles, TablesSound, PipesConnected, LocksAgree;
  }

  lemma KeepingAccounted(a: Arena, b: Arena)
    requires a.generation < TWO64 && b.generation == a.generation
    requires forall id :: id in a.descriptions ==> id in b.descriptions && b.descriptions[id] == a.descriptions[id]
    ensures Accounted(a, b, 0)
  {
  }

  lemma PipeGeneration(a: Arena, capacity: nat)
    ensures OpenPipe(a, capacity).0.generation == a.generation
  {
  }

  lemma PlusAccounted(a: Arena, extra: multiset<Id>)
    requires a.generation < TWO64
    ensures Accounted(a, Plus(a, extra), 0)
  {
  }

  lemma ReadAccounted(a: Arena, id: Id, maximum: nat)
    requires a.generation < TWO64
    ensures Accounted(a, Read(a, id, maximum).0, 0)
  {
  }

  lemma WriteAccounted(a: Arena, id: Id, bytes: seq<Byte>)
    requires a.generation < TWO64
    ensures Accounted(a, Write(a, id, bytes).0, 0)
  {
  }

  lemma HostAccounted(a: Arena, id: Id, bytes: seq<Byte>)
    requires a.generation < TWO64
    ensures Accounted(a, AppendInput(a, id, bytes).0, 0) && Accounted(a, CloseInput(a, id).0, 0) &&
            Accounted(a, DrainCapture(a, id).0, 0)
  {
  }

  // ----- Refused, then granted -----

  /** Another description holds a lock that conflicts with the request. */
  ghost predicate Obstructed(a: Arena, id: Id, inode: nat, mode: Mode) {
    exists other :: other in a.descriptions && other != id && Conflict(a.descriptions[other].lock, inode, mode)
  }

  lemma RefusedIsObstructed(a: Arena, id: Id, inode: nat, mode: Mode)
    requires SetLock(a, id, inode, Some(mode)).1 == Success(false)
    ensures Obstructed(SetLock(a, id, inode, Some(mode)).0, id, inode, mode)
  {
    var b := SetLock(a, id, inode, Some(mode)).0;
    var other :| other in b.descriptions && Conflict(b.descriptions[other].lock, inode, mode);
    assert b.descriptions[id].lock.None?;
  }

  /** While another description obstructs it, a request of a description without that lock is refused. */
  lemma ObstructedIsRefused(w: World, id: Id, inode: nat, mode: Mode)
    requires Sound(w) && Obstructed(w.arena, id, inode, mode) && id in w.arena.descriptions
    ensures SetLock(w.arena, id, inode, Some(mode)).1 == Success(false)
  {
    hide Counted, NoneDangles, TablesSound, PipesConnected, Within;
    var a := w.arena;
    var other :| other in a.descriptions && other != id && Conflict(a.descriptions[other].lock, inode, mode);
    assert Agree(a.descriptions[id].lock, a.descriptions[other].lock);
    assert Unlocked(a, id).descriptions[other] == a.descriptions[other];
  }

  /** A step after which a scheduler can tell that locks were released: the flag is up and the
      generation differs. */
  predicate Announces(w: World, e: Event) {
    Step(w, e).arena.locksChanged && Step(w, e).arena.generation != w.arena.generation
  }

  lemma AccountedMeans(a: Arena, b: Arena, k: nat)
    requires Accounted(a, b, k) && a.generation < TWO64
    ensures LocksKept(a, b) || (b.locksChanged && b.generation != a.generation)
  {
    if 0 < k {
      if a.generation + k < TWO64 {
        assert (a.generation + k) % TWO64 == a.generation + k;
      } else {
        assert (a.generation + k) % TWO64 == a.generation + k - TWO64;
      }
    }
  }

  /** If a lock request is obstructed and the same request is granted after some run, then some step
      of the run released a lock, raised the wake flag and advanced the generation. */
  lemma {:induction false} GrantFollowsRelease(w: World, events: seq<Event>, id: Id, inode: nat, mode: Mode)
    returns (i: nat)
    requires Sound(w) && w.arena.generation < TWO64 && Obstructed(w.arena, id, inode, mode)
    requires SetLock(Run(w, events).arena, id, inode, Some(mode)).1 == Success(true)
    ensures i < |events| && Announces(Run(w, events[..i]), events[i])
    decreases |events|
  {
    hide Sound, Step, SetLock;
    i := 0;
    if events == [] {
      InDescriptions(w.arena, id, inode, mode);
      ObstructedIsRefused(w, id, inode, mode);
    } else {
      var v := Step(w, events[0]);
      var k := StepAccounted(w, events[0]);
      AccountedMeans(w.arena, v.arena, k);
      if LocksKept(w.arena, v.arena) {
        StepSound(w, events[0]);
        var j := GrantFollowsRelease(v, events[1..], id, inode, mode);
        i := j + 1;
        assert events[..i][1..] == events[1..][..j] && events[..i][0] == events[0];
      } else {
        assert Run(w, events[..0]) == w;
      }
    }
  }

  lemma InDescriptions(a: Arena, id: Id, inode: nat, mode: Mode)
    requires SetLock(a, id, inode, Some(mode)).1 == Success(true)
    ensures id in a.descriptions
  {
  }

  /** The same for a request that was actually made and refused. */
  lemma RefusedThenGranted(w: World, events: seq<Event>, id: Id, inode: nat, mode: Mode) returns (i: nat)
    requires Sound(w) && w.arena.generation < TWO64 && SetLock(w.arena, id, inode, Some(mode)).1 == Success(false)
    requires SetLock(Run(Step(w, Locks(id, inode, Some(mode))), events).arena, id, inode, Some(mode)).1 == Success(true)
    ensures i < |events| && Announces(Run(Step(w, Locks(id, inode, Some(mode))), events[..i]), events[i])
  {
    hide Sound, SetLock;
    RefusedIsObstructed(w.arena, id, inode, mode);
    StepSound(w, Locks(id, inode, Some(mode)));
    var k := LockAccounted(w.arena, id, inode, Some(mode));
    i := GrantFollowsRelease(Step(w, Locks(id, inode, Some(mode))), events, id, inode, mode);
  }
}
