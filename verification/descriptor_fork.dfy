// Forking a descriptor table: it either retains every description it names exactly as often as it
// names it, or leaves the arena as it was; closing what a fork inherited undoes it.

module DescriptorFork {
  import opened Basics
  import opened Descriptors
  import opened DescriptorRuns

  /** The arena with extra references. */
  function Plus(a: Arena, extra: multiset<Id>): Arena {
    a.(descriptions := map id | id in a.descriptions ::
         a.descriptions[id].(references := a.descriptions[id].references + extra[id]))
  }

  /** Every count, with the extra references, still fits 32 bits. */
  ghost predicate Fits(a: Arena, extra: multiset<Id>) {
    forall id :: id in a.descriptions && id in extra ==> a.descriptions[id].references + extra[id] <= U32_MAX
  }

  /** Every description named is live and referenced. */
  ghost predicate Referenced(a: Arena, ids: multiset<Id>) {
    forall id :: id in ids ==> id in a.descriptions && a.descriptions[id].references > 0
  }

  lemma PlusNone(a: Arena)
    ensures Plus(a, multiset{}) == a
  {
    assert Plus(a, multiset{}).descriptions == a.descriptions;
  }

  lemma PlusOne(a: Arena, extra: multiset<Id>, id: Id)
    requires id in a.descriptions
    ensures WithReferences(Plus(a, extra), id, a.descriptions[id].references + extra[id] + 1) ==
            Plus(a, extra + multiset{id})
  {
    assert WithReferences(Plus(a, extra), id, a.descriptions[id].references + extra[id] + 1).descriptions ==
           Plus(a, extra + multiset{id}).descriptions;
  }

  lemma ReleaseOne(a: Arena, extra: multiset<Id>, id: Id)
    requires id in a.descriptions && a.descriptions[id].references > 0 && id in extra
    ensures Release(Plus(a, extra), id).0 == Plus(a, extra - multiset{id})
  {
    hide Drop, Plus;
    var rest := extra - multiset{id};
    assert extra == rest + multiset{id};
    PlusOne(a, rest, id);
    PlusCounts(a, rest, id);
    Rewritten(Plus(a, rest), id, a.descriptions[id].references + extra[id]);
  }

  lemma PlusCounts(a: Arena, extra: multiset<Id>, id: Id)
    requires id in a.descriptions
    ensures id in Plus(a, extra).descriptions &&
            Plus(a, extra).descriptions[id].references == a.descriptions[id].references + extra[id]
  {
  }

  lemma Rewritten(a: Arena, id: Id, references: nat)
    requires id in a.descriptions
    ensures WithReferences(WithReferences(a, id, references), id, a.descriptions[id].references) == a
  {
    assert a.descriptions[id := a.descriptions[id].(references := references)][id := a.descriptions[id]] ==
           a.descriptions;
  }

  /** Giving back references that were added leaves the arena without them: nothing is dropped. */
  lemma {:induction false} ReleaseAllUndoes(a: Arena, extra: multiset<Id>, ids: seq<Id>)
    requires Referenced(a, multiset(ids)) && multiset(ids) <= extra
    ensures ReleaseAll(Plus(a, extra), ids) == Plus(a, extra - multiset(ids))
    decreases |ids|
  {
    hide Plus, Release;
    if ids == [] {
      assert extra - multiset(ids) == extra;
    } else {
      assert ids == [ids[0]] + ids[1..];
      assert multiset(ids) == multiset{ids[0]} + multiset(ids[1..]);
      assert ids[0] in multiset(ids);
      ReleaseOne(a, extra, ids[0]);
      assert Referenced(a, multiset(ids[1..]));
      ReleaseAllUndoes(a, extra - multiset{ids[0]}, ids[1..]);
      assert extra - multiset{ids[0]} - multiset(ids[1..]) == extra - multiset(ids);
    }
  }

  lemma {:induction false} InheritExactly(a: Arena, ids: seq<Id>, done: seq<Id>)
    requires Referenced(a, multiset(done) + multiset(ids)) && Fits(a, multiset(done))
    ensures var extra := multiset(done) + multiset(ids);
            Inherit(Plus(a, multiset(done)), ids, done) ==
            if Fits(a, extra) then (Plus(a, extra), Success(())) else (a, Failure(ReferenceOverflow))
    decreases |ids|
  {
    hide Plus, Fits, Referenced, Retain, ReleaseAll;
    if ids == [] {
      assert multiset(done) + multiset(ids) == multiset(done);
    } else {
      var id := ids[0];
      assert ids == [id] + ids[1..];
      assert multiset(done + [id]) == multiset(done) + multiset{id};
      assert multiset(done + [id]) + multiset(ids[1..]) == multiset(done) + multiset(ids);
      NextReferenced(a, multiset(done), id, multiset(ids[1..]));
      RetainOne(a, multiset(done), id);
      if a.descriptions[id].references + multiset(done)[id] >= U32_MAX {
        Overflows(a, multiset(done), id, multiset(ids[1..]));
        Rollback(a, done);
      } else {
        FitsMore(a, multiset(done), id);
        InheritExactly(a, ids[1..], done + [id]);
      }
    }
  }

  lemma NextReferenced(a: Arena, done: multiset<Id>, id: Id, rest: multiset<Id>)
    requires Referenced(a, done + multiset{id} + rest)
    ensures id in a.descriptions && Referenced(a, done)
  {
    assert id in done + multiset{id} + rest;
  }

  lemma RetainOne(a: Arena, extra: multiset<Id>, id: Id)
    requires id in a.descriptions
    ensures Retain(Plus(a, extra), id) ==
            if a.descriptions[id].references + extra[id] >= U32_MAX then (Plus(a, extra), Failure(ReferenceOverflow))
            else (Plus(a, extra + multiset{id}), Success(()))
  {
    PlusOne(a, extra, id);
  }

  lemma Overflows(a: Arena, done: multiset<Id>, id: Id, rest: multiset<Id>)
    requires id in a.descriptions && a.descriptions[id].references + done[id] >= U32_MAX
    ensures !Fits(a, done + multiset{id} + rest)
  {
    assert (done + multiset{id} + rest)[id] > done[id];
  }

  lemma Rollback(a: Arena, done: seq<Id>)
    requires Referenced(a, multiset(done))
    ensures ReleaseAll(Plus(a, multiset(done)), done) == a
  {
    hide Plus;
    ReleaseAllUndoes(a, multiset(done), done);
    PlusNone(a);
    assert multiset(done) - multiset(done) == multiset{};
  }

  lemma FitsMore(a: Arena, extra: multiset<Id>, id: Id)
    requires Fits(a, extra) && id in a.descriptions && a.descriptions[id].references + extra[id] < U32_MAX
    ensures Fits(a, extra + multiset{id})
  {
  }

  /** In a sound world a fork succeeds exactly when every count can hold the new references. It then
      adds one reference for every entry of the table, and otherwise leaves the arena as it was. */
  lemma ForkExactly(w: World, pid: Pid)
    requires Sound(w)
    ensures var t := TableOf(w, pid);
            var extra := multiset(Named(t.entries));
            Fork(w.arena, t) ==
            if Fits(w.arena, extra) then (Plus(w.arena, extra), Success(t)) else (w.arena, Failure(ReferenceOverflow))
  {
    hide Sound, Named, Plus;
    var ids := Named(TableOf(w, pid).entries);
    NamedReferenced(w, pid);
    assert multiset([]) + multiset(ids) == multiset(ids);
    PlusNone(w.arena);
    InheritExactly(w.arena, ids, []);
  }

  lemma {:induction false} NamedOnly(entries: map<Fd, Id>, id: Id)
    requires id in Named(entries)
    ensures exists fd :: fd in entries && entries[fd] == id
    decreases |entries|
  {
    var fd := Least(entries);
    if entries[fd] != id {
      assert Named(entries) == [entries[fd]] + Named(entries - {fd});
      NamedFirst(entries);
      NamedOnly(entries - {fd}, id);
      var other :| other in entries - {fd} && (entries - {fd})[other] == id;
      assert other in entries && entries[other] == id;
    }
  }

  lemma NamedReferenced(w: World, pid: Pid)
    requires Sound(w)
    ensures Referenced(w.arena, multiset(Named(TableOf(w, pid).entries)))
  {
    hide ArenaSound, Named;
    var entries := TableOf(w, pid).entries;
    NamedNone();
    forall id | id in multiset(Named(entries))
      ensures id in w.arena.descriptions && w.arena.descriptions[id].references > 0
    {
      assert id in Named(entries);
      NamedOnly(entries, id);
      var fd :| fd in entries && entries[fd] == id;
      assert (pid, fd) in Owners(w.tables, id);
      assert CountedAt(w, id);
    }
  }

  /** Closing the table a fork returned gives back exactly what the fork took, whatever happened to
      neither of them in between. */
  lemma CloseAllUndoesFork(w: World, pid: Pid)
    requires Sound(w) && Fork(w.arena, TableOf(w, pid)).1.Success?
    ensures CloseAll(Fork(w.arena, TableOf(w, pid)).0, TableOf(w, pid)).0 == w.arena
  {
    hide Sound, Named, Fork, Plus;
    var ids := Named(TableOf(w, pid).entries);
    ForkExactly(w, pid);
    NamedReferenced(w, pid);
    ReleaseAllUndoes(w.arena, multiset(ids), ids);
    PlusNone(w.arena);
    assert multiset(ids) - multiset(ids) == multiset{};
  }

  // ----- A fork keeps the world sound -----

  lemma PlusSound(w: World, extra: multiset<Id>)
    requires Sound(w) && forall id :: id in extra ==> id in w.arena.descriptions
    ensures Sound(w.(arena := Plus(w.arena, extra), handles := w.handles + extra))
  {
    hide ArenaSound, TablesSound, Owners;
    var v := w.(arena := Plus(w.arena, extra), handles := w.handles + extra);
    BytesWithin(w.arena);
    AlikeSound(w.arena, v.arena);
    SameTables(w, v);
    forall id | id in v.arena.descriptions
      ensures CountedAt(v, id)
    {
      assert CountedAt(w, id);
    }
  }

  /** References the machine holds turned into the entries `which` of a table. */
  function PutAll(w: World, pid: Pid, which: map<Fd, Id>): World {
    w.(tables := w.tables[pid := TableOf(w, pid).(entries := TableOf(w, pid).entries + which)],
       handles := w.handles - multiset(Named(which)))
  }

  /** Putting the first entry leaves the rest to put, and leads to the same world. */
  lemma PutFirst(w: World, pid: Pid, which: map<Fd, Id>)
    requires which != map[] && which.Keys !! TableOf(w, pid).entries.Keys && multiset(Named(which)) <= w.handles
    ensures var fd := Least(which);
            var v := Put(w, pid, fd, which[fd]);
            && which[fd] in w.handles && PutAll(v, pid, which - {fd}) == PutAll(w, pid, which)
            && (which - {fd}).Keys !! TableOf(v, pid).entries.Keys && multiset(Named(which - {fd})) <= v.handles
  {
    hide Named, Least, PutAll, Put, TableOf;
    var fd := Least(which);
    NamedFirst(which);
    MergeFirst(TableOf(w, pid).entries, which, fd);
    HandlesFirst(w.handles, which[fd], multiset(Named(which - {fd})));
    PutParts(w, pid, fd, which[fd]);
    PutAllParts(w, pid, which);
    PutAllParts(Put(w, pid, fd, which[fd]), pid, which - {fd});
    var t := TableOf(w, pid);
    MapOverwritten(w.tables, pid, Table(t.entries[fd := which[fd]], t.closeOnExec),
                   Table(t.entries + which, t.closeOnExec));
  }

  lemma PutParts(w: World, pid: Pid, fd: Fd, id: Id)
    ensures var v := Put(w, pid, fd, id);
            && v == World(w.arena, w.tables[pid := TableOf(v, pid)], w.handles - multiset{id})
            && TableOf(v, pid) == Table(TableOf(w, pid).entries[fd := id], TableOf(w, pid).closeOnExec)
  {
  }

  lemma PutAllParts(w: World, pid: Pid, which: map<Fd, Id>)
    ensures PutAll(w, pid, which) ==
            World(w.arena, w.tables[pid := Table(TableOf(w, pid).entries + which, TableOf(w, pid).closeOnExec)],
                  w.handles - multiset(Named(which)))
  {
  }

  lemma MergeFirst(entries: map<Fd, Id>, which: map<Fd, Id>, fd: Fd)
    requires fd in which && which.Keys !! entries.Keys
    ensures entries[fd := which[fd]] + (which - {fd}) == entries + which
    ensures (which - {fd}).Keys !! entries[fd := which[fd]].Keys
  {
  }

  lemma HandlesFirst(handles: multiset<Id>, id: Id, rest: multiset<Id>)
    requires multiset{id} + rest <= handles
    ensures id in handles && rest <= handles - multiset{id}
    ensures handles - multiset{id} - rest == handles - (multiset{id} + rest)
  {
    assert (multiset{id} + rest)[id] >= 1;
  }

  lemma {:induction false} PutAllSound(w: World, pid: Pid, which: map<Fd, Id>)
    requires Sound(w) && pid in w.tables && which.Keys !! w.tables[pid].entries.Keys
    requires |w.tables[pid].entries| + |which| <= MAX_FDS && multiset(Named(which)) <= w.handles &&
             forall fd :: fd in which ==> fd >= 0
    ensures Sound(PutAll(w, pid, which))
    decreases |which|
  {
    hide Sound, PutAll, Named;
    if which == map[] {
      PutNone(w, pid);
    } else {
      var fd := Least(which);
      NamedFirst(which);
      PutFirst(w, pid, which);
      PutSound(w, pid, fd, which[fd]);
      MapAdded(w.tables[pid].entries, fd, which[fd]);
      PutAllSound(Put(w, pid, fd, which[fd]), pid, which - {fd});
    }
  }

  lemma PutNone(w: World, pid: Pid)
    requires pid in w.tables
    ensures PutAll(w, pid, map[]) == w
  {
    assert w.tables[pid].entries + map[] == w.tables[pid].entries;
    assert w.tables[pid := w.tables[pid]] == w.tables;
    assert w.handles - multiset([]) == w.handles;
  }

  lemma ForkSound(w: World, pid: Pid, child: Pid)
    requires Sound(w)
    ensures Sound(Step(w, Forks(pid, child)))
  {
    hide Sound, Fork, Plus, Named;
    if child !in w.tables {
      ForkExactly(w, pid);
      var t := TableOf(w, pid);
      var extra := multiset(Named(t.entries));
      if Fits(w.arena, extra) {
        NamedReferenced(w, pid);
        PlusSound(w, extra);
        InheritedSound(w.(arena := Plus(w.arena, extra), handles := w.handles + extra), w.handles, child, t);
      }
    }
  }

  lemma InheritedSound(w: World, handles: multiset<Id>, child: Pid, t: Table)
    requires Sound(w) && child !in w.tables && w.handles == handles + multiset(Named(t.entries))
    requires t == EmptyTable || exists pid :: pid in w.tables && w.tables[pid] == t
    ensures Sound(World(w.arena, w.tables[child := t], handles))
  {
    hide Sound, Named;
    EmptyTableSound(w, child);
    var w1 := w.(tables := w.tables[child := EmptyTable]);
    InheritedTable(w, t);
    PutAllSound(w1, child, t.entries);
    var w2 := PutAll(w1, child, t.entries);
    assert map[] + t.entries == t.entries;
    assert w2.handles == handles;
    FlagsSound(w2, child, t.closeOnExec);
    assert w2.tables[child := t] == w.tables[child := t];
  }

  lemma InheritedTable(w: World, t: Table)
    requires Sound(w) && (t == EmptyTable || exists pid :: pid in w.tables && w.tables[pid] == t)
    ensures |t.entries| <= MAX_FDS && t.closeOnExec <= t.entries.Keys && forall fd :: fd in t.entries ==> fd >= 0
  {
    hide Counted, NoneDangles, ArenaSound;
  }

  // ----- Every step and every run -----

  lemma DiscardSound(w: World, id: Id)
    requires Sound(w)
    ensures Sound(Step(w, Forget(id)))
  {
    hide Sound, Release;
    if Discard(w.arena, id).1.Success? {
      HeldSound(w, id);
      GivenSound(Held(w, id), id);
      assert Held(w, id).handles - multiset{id} == w.handles;
    } else if id in w.arena.descriptions && w.arena.descriptions[id].references == 0 {
      HeldSound(w, id);
      GivenSound(Held(w, id), id);
    }
  }

  lemma SetLockKeeps(a: Arena, id: Id, inode: nat, mode: Option<Mode>)
    ensures var b := SetLock(a, id, inode, mode).0;
            && b.descriptions.Keys == a.descriptions.Keys
            && forall x :: x in a.descriptions ==> b.descriptions[x].references == a.descriptions[x].references
  {
  }

  lemma PipedKeeps(a: Arena, capacity: nat)
    requires Within(a)
    ensures var b := OpenPipe(a, capacity).0;
            && (forall x :: x in a.descriptions ==> x in b.descriptions && b.descriptions[x] == a.descriptions[x])
            && (forall x :: x in b.descriptions && x !in a.descriptions ==> b.descriptions[x].references == 0)
  {
    hide OpenPipe;
    FreshId(a);
    OpenPipeExactly(a, capacity);
    assert a.nextId + 1 !in a.descriptions;
  }

  /** Steps that only change the arena. */
  lemma ArenaEventSound(w: World, e: Event)
    requires Sound(w) && (e.Open? || e.MakePipe? || e.Locks? || e.TakesChanges? || e.Reads? || e.Writes?)
    ensures Sound(Step(w, e))
  {
    hide ArenaSound, Counted, NoneDangles, TablesSound, SetLock, OpenPipe;
    var a := w.arena;
    match e
    case Open(d) =>
      if !IsEnd(d) {
        AllocateSound(a, d);
        SoundFresh(w);
        ArenaStep(w, Allocate(a, d).0);
      }
    case MakePipe(capacity) =>
      OpenPipeSound(a, capacity);
      SoundWithin(w);
      PipedKeeps(a, capacity);
      ArenaStep(w, OpenPipe(a, capacity).0);
    case Locks(id, inode, mode) =>
      LockSound(a, id, inode, mode);
      SetLockKeeps(a, id, inode, mode);
      ArenaStep(w, SetLock(a, id, inode, mode).0);
    case TakesChanges =>
      BytesWithin(a);
      AlikeSound(a, a.(locksChanged := false));
      ArenaStep(w, a.(locksChanged := false));
    case Reads(id, maximum) =>
      ReadSound(a, id, maximum);
      ArenaStep(w, Read(a, id, maximum).0);
    case Writes(id, bytes) =>
      WriteSound(a, id, bytes);
      ArenaStep(w, Write(a, id, bytes).0);
  }

  /** The host's side of the streams. */
  lemma HostEventSound(w: World, e: Event)
    requires Sound(w) && (e.Feeds? || e.Shuts? || e.Drains?)
    ensures Sound(Step(w, e))
  {
    hide ArenaSound, Counted, NoneDangles, TablesSound;
    var a := w.arena;
    match e
    case Feeds(id, bytes) =>
      AppendSound(a, id, bytes);
      ArenaStep(w, AppendInput(a, id, bytes).0);
    case Shuts(id) =>
      CloseInputSound(a, id);
      ArenaStep(w, CloseInput(a, id).0);
    case Drains(id) =>
      DrainSound(a, id);
      ArenaStep(w, DrainCapture(a, id).0);
  }

  lemma SoundWithin(w: World)
    requires Sound(w)
    ensures Within(w.arena)
  {
    hide Counted, NoneDangles, TablesSound, PipesConnected, LocksAgree;
  }

  lemma SoundFresh(w: World)
    requires Sound(w)
    ensures w.arena.nextId !in w.arena.descriptions
  {
    hide Counted, NoneDangles, TablesSound, PipesConnected, LocksAgree;
  }

  lemma FlagEventSound(w: World, pid: Pid, fd: Fd, enabled: bool)
    requires Sound(w)
    ensures Sound(Step(w, Flags(pid, fd, enabled)))
  {
    hide Sound;
    Unflagged(w, pid);
    if fd in TableOf(w, pid).entries {
      FlagsSound(w, pid, if enabled then w.tables[pid].closeOnExec + {fd} else w.tables[pid].closeOnExec - {fd});
    } else {
      SameTable(w, pid);
    }
  }

  lemma DupSound(w: World, pid: Pid, source: Fd, destination: Fd)
    requires Sound(w)
    ensures Sound(Step(w, Dups(pid, source, destination)))
  {
    hide Sound, Install;
    var t := TableOf(w, pid);
    if source !in t.entries || source == destination {
      SameTable(w, pid);
    } else {
      InstallSound(w, pid, destination, t.entries[source]);
    }
  }

  lemma StepSound(w: World, e: Event)
    requires Sound(w)
    ensures Sound(Step(w, e))
  {
    hide Sound, Step;
    match e
    case Installs(pid, fd, id) => InstallSound(w, pid, fd, id);
    case Dups(pid, source, destination) => DupSound(w, pid, source, destination);
    case Closes(pid, fd) => CloseSound(w, pid, fd);
    case Flags(pid, fd, enabled) => FlagEventSound(w, pid, fd, enabled);
    case Execs(pid) => ExecSound(w, pid);
    case Forks(pid, child) => ForkSound(w, pid, child);
    case Exits(pid) => ExitSound(w, pid);
    case Forget(id) => DiscardSound(w, id);
    case Holds(id) => HoldEventSound(w, id);
    case Drops(id) => DropEventSound(w, id);
    case Feeds(_, _) => HostEventSound(w, e);
    case Shuts(_) => HostEventSound(w, e);
    case Drains(_) => HostEventSound(w, e);
    case _ => ArenaEventSound(w, e);
  }

  lemma HoldEventSound(w: World, id: Id)
    requires Sound(w)
    ensures Sound(Step(w, Holds(id)))
  {
    hide Sound;
    if Retain(w.arena, id).1.Success? {
      HeldSound(w, id);
    }
  }

  lemma DropEventSound(w: World, id: Id)
    requires Sound(w)
    ensures Sound(Step(w, Drops(id)))
  {
    hide Sound, Release;
    if id in w.handles {
      GivenSound(w, id);
    }
  }

  lemma StartSound()
    ensures Sound(Start)
  {
  }

  /** Every world a machine can reach is sound. */
  lemma EveryRunSound(events: seq<Event>)
    ensures Sound(Run(Start, events))
  {
    hide Sound;
    StartSound();
    RunSound(Start, events);
  }

  /** In every run from the empty machine, reference counts equal the table entries and handles
      naming each description, no entry dangles, pipe counts equal the live ends, close-on-exec
      flags name open descriptors, all limits hold and no two locks conflict. */
  lemma {:induction false} RunSound(w: World, events: seq<Event>)
    requires Sound(w)
    ensures Sound(Run(w, events))
    decreases |events|
  {
    hide Sound, Step;
    if events != [] {
      StepSound(w, events[0]);
      RunSound(Step(w, events[0]), events[1..]);
    }
  }
}
