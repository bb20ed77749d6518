// Closing descriptors without waking anyone, as the end of a redirection, the roll back of a child
// and opening over a used number do: exactly when that leaves a task waiting for a condition that
// has come true.

module QuietClosing {
  import opened Basics
  import opened Descriptors
  import opened DescriptorRuns
  import opened DescriptorFork
  import opened Wakeups
  import S = Scheduling

  // ----- What giving back references leaves -----

  /** Every reference to a description is among those given back. */
  predicate Goes(a: Arena, ids: multiset<Id>, id: Id) {
    id in a.descriptions && id in ids && a.descriptions[id].references == ids[id]
  }

  /** No more references are given back than there are. */
  ghost predicate Affordable(a: Arena, ids: multiset<Id>) {
    forall id :: id in ids ==> id in a.descriptions && ids[id] <= a.descriptions[id].references
  }

  /** Exactly the descriptions with a reference left stay, and pipes that stay keep their bytes. */
  ghost predicate Remains(a: Arena, ids: multiset<Id>, b: Arena) {
    && b.nextPipe == a.nextPipe && b.nextId == a.nextId
    && (forall id :: id in b.descriptions <==> id in a.descriptions && !Goes(a, ids, id))
    && (forall id :: id in b.descriptions ==> EntryRemains(a.descriptions[id], b.descriptions[id], ids[id]))
    && (forall p :: p in b.pipes ==> p in a.pipes && PipeRemains(a.pipes[p], b.pipes[p]))
  }

  predicate EntryRemains(x: Entry, y: Entry, count: nat) {
    y.description == x.description && y.references == x.references - count
  }

  predicate PipeRemains(x: Pipe, y: Pipe) {
    y.bytes == x.bytes && y.capacity == x.capacity
  }

  lemma ReleaseRemains(a: Arena, id: Id)
    requires id in a.descriptions && a.descriptions[id].references > 0
    ensures Remains(a, multiset{id}, Release(a, id).0)
  {
    hide Drop;
    Dropped(a, id);
  }

  lemma RemainsThen(a: Arena, id: Id, b: Arena, rest: multiset<Id>, c: Arena)
    requires Affordable(a, multiset{id} + rest) && Remains(a, multiset{id}, b) && Remains(b, rest, c)
    ensures Remains(a, multiset{id} + rest, c)
  {
    forall other | other in a.descriptions
      ensures other in c.descriptions <==> !Goes(a, multiset{id} + rest, other)
    {
      assert other in b.descriptions <==> !Goes(a, multiset{id}, other);
    }
  }

  lemma AffordableRest(a: Arena, id: Id, b: Arena, rest: multiset<Id>)
    requires Affordable(a, multiset{id} + rest) && Remains(a, multiset{id}, b)
    ensures Affordable(b, rest) && id in a.descriptions && a.descriptions[id].references > 0
  {
    assert id in multiset{id} + rest;
    forall other | other in rest
      ensures other in b.descriptions && rest[other] <= b.descriptions[other].references
    {
      assert other in multiset{id} + rest;
    }
  }

  lemma FirstAffordable(a: Arena, id: Id, rest: multiset<Id>)
    requires Affordable(a, multiset{id} + rest)
    ensures id in a.descriptions && a.descriptions[id].references > 0
  {
    assert id in multiset{id} + rest;
  }

  lemma {:induction false} ReleaseAllRemains(a: Arena, ids: seq<Id>)
    requires Affordable(a, multiset(ids))
    ensures Remains(a, multiset(ids), ReleaseAll(a, ids))
    decreases |ids|
  {
    hide Release, Remains, Affordable;
    if ids == [] {
      NothingGiven(a);
    } else {
      assert ids == [ids[0]] + ids[1..];
      assert multiset(ids) == multiset{ids[0]} + multiset(ids[1..]);
      var rest := multiset(ids[1..]);
      FirstAffordable(a, ids[0], rest);
      var b := Release(a, ids[0]).0;
      ReleaseRemains(a, ids[0]);
      AffordableRest(a, ids[0], b, rest);
      ReleaseAllRemains(b, ids[1..]);
      RemainsThen(a, ids[0], b, rest, ReleaseAll(a, ids));
    }
  }

  lemma NothingGiven(a: Arena)
    ensures Remains(a, multiset{}, a)
  {
  }

  // ----- Which conditions come true -----

  /** Some live description is that end of the pipe. */
  ghost predicate HasEnd(a: Arena, p: PipeId, reader: bool) {
    exists other :: other in a.descriptions && a.descriptions[other].description == End(p, reader)
  }

  /** A pipe's counts say which ends it has. */
  ghost predicate EndsCounted(a: Arena, p: PipeId) {
    && (p in a.pipes <==> HasEnd(a, p, true) || HasEnd(a, p, false))
    && (p in a.pipes ==>
          (a.pipes[p].readers > 0 <==> HasEnd(a, p, true)) && (a.pipes[p].writers > 0 <==> HasEnd(a, p, false)))
  }

  lemma EndsLive(a: Arena, p: PipeId, reader: bool)
    ensures |Ends(a, p, reader)| > 0 <==> HasEnd(a, p, reader)
  {
    if other :| other in a.descriptions && a.descriptions[other].description == End(p, reader) {
      assert other in Ends(a, p, reader);
    } else {
      assert Ends(a, p, reader) == {};
    }
  }

  lemma CountedEnds(a: Arena, p: PipeId)
    requires PipesConnected(a)
    ensures EndsCounted(a, p)
  {
    hide Ends;
    EndsLive(a, p, true);
    EndsLive(a, p, false);
    if p in a.pipes {
      assert Connected(a, p);
    }
  }

  /** A pipe has one description for each end. */
  lemma OneEnd(a: Arena, p: PipeId, reader: bool, x: Id, y: Id)
    requires PipesConnected(a) && x in a.descriptions && y in a.descriptions
    requires a.descriptions[x].description == End(p, reader) == a.descriptions[y].description
    ensures x == y
  {
    assert Connected(a, p);
    var ends := Ends(a, p, reader);
    assert x in ends && y in ends;
    AtMostOne(ends, x, y);
  }

  lemma AtMostOne(ids: set<Id>, x: Id, y: Id)
    requires |ids| <= 1 && x in ids && y in ids
    ensures x == y
  {
    if x != y {
      SubsetSmaller({x, y}, ids);
    }
  }

  /** All references to a pipe end are given back, and the other end stays. */
  ghost predicate Leaves(a: Arena, ids: multiset<Id>, id: Id) {
    && Goes(a, ids, id) && IsEnd(a.descriptions[id].description)
    && Stays(a, ids, a.descriptions[id].description.pipe, !a.descriptions[id].description.PipeReader?)
  }

  /** An end of a pipe is live and keeps a reference, or never had one. */
  ghost predicate Stays(a: Arena, ids: multiset<Id>, p: PipeId, reader: bool) {
    exists other ::
      other in a.descriptions && a.descriptions[other].description == End(p, reader) && !Goes(a, ids, other)
  }

  lemma StaysIsLeft(a: Arena, ids: multiset<Id>, b: Arena, p: PipeId, reader: bool)
    requires Remains(a, ids, b)
    ensures Stays(a, ids, p, reader) <==> HasEnd(b, p, reader)
  {
    if other :| other in a.descriptions && a.descriptions[other].description == End(p, reader) && !Goes(a, ids, other) {
      assert EntryRemains(a.descriptions[other], b.descriptions[other], ids[other]);
    }
    if other :| other in b.descriptions && b.descriptions[other].description == End(p, reader) {
      assert EntryRemains(a.descriptions[other], b.descriptions[other], ids[other]);
      assert other in a.descriptions && a.descriptions[other].description == End(p, reader) && !Goes(a, ids, other);
    }
  }

  /** What a condition asks of one end of a pipe. */
  function WaitsOn(p: PipeId, reader: bool): Wait {
    if reader then PipeWritable(p) else PipeReadable(p)
  }

  /** The end whose going makes the condition true, if one end of the pipe does. */
  lemma LeavesExactly(a: Arena, ids: multiset<Id>, b: Arena, p: PipeId, reader: bool)
    requires PipesConnected(a) && Remains(a, ids, b) && HasEnd(a, p, reader)
    ensures (exists id :: Leaves(a, ids, id) &&
                          EndWait(a.descriptions[id].description) == Some(WaitsOn(p, reader))) <==>
            !HasEnd(b, p, reader) && HasEnd(b, p, !reader)
  {
    hide Remains, PipesConnected;
    StaysIsLeft(a, ids, b, p, reader);
    StaysIsLeft(a, ids, b, p, !reader);
    var own :| own in a.descriptions && a.descriptions[own].description == End(p, reader);
    if !Stays(a, ids, p, reader) && Stays(a, ids, p, !reader) {
      assert Leaves(a, ids, own) && EndWait(a.descriptions[own].description) == Some(WaitsOn(p, reader));
    }
    if id :| Leaves(a, ids, id) && EndWait(a.descriptions[id].description) == Some(WaitsOn(p, reader)) {
      assert a.descriptions[id].description == End(p, reader);
      if Stays(a, ids, p, reader) {
        var other :| other in a.descriptions && a.descriptions[other].description == End(p, reader) &&
                   !Goes(a, ids, other);
        OneEnd(a, p, reader, id, other);
      }
    }
  }

  /** A pipe condition that did not hold comes true exactly when its end goes and the other stays. */
  lemma PipeTurns(a: Arena, ids: multiset<Id>, b: Arena, p: PipeId, reader: bool)
    requires PipesConnected(a) && PipesConnected(b) && Remains(a, ids, b) && !Met(a, WaitsOn(p, reader))
    ensures Met(b, WaitsOn(p, reader)) <==>
            exists id :: Leaves(a, ids, id) && EndWait(a.descriptions[id].description) == Some(WaitsOn(p, reader))
  {
    hide PipesConnected, Leaves, HasEnd;
    CountedEnds(a, p);
    CountedEnds(b, p);
    if p in a.pipes {
      LeavesExactly(a, ids, b, p, reader);
    } else {
      NoneLeaves(a, ids, p, reader);
    }
  }

  lemma NoneLeaves(a: Arena, ids: multiset<Id>, p: PipeId, reader: bool)
    requires PipesConnected(a) && p !in a.pipes
    ensures !exists id :: Leaves(a, ids, id) && EndWait(a.descriptions[id].description) == Some(WaitsOn(p, reader))
  {
  }

  lemma InputTurns(a: Arena, ids: multiset<Id>, b: Arena, i: Id)
    requires Remains(a, ids, b) && !Met(a, InputReadable(i))
    ensures !Met(b, InputReadable(i))
    ensures !exists id :: Leaves(a, ids, id) && EndWait(a.descriptions[id].description) == Some(InputReadable(i))
  {
  }

  lemma Turns(a: Arena, ids: multiset<Id>, b: Arena, wait: Wait)
    requires PipesConnected(a) && PipesConnected(b) && Remains(a, ids, b) && !Met(a, wait)
    ensures Met(b, wait) <==> exists id :: Leaves(a, ids, id) && EndWait(a.descriptions[id].description) == Some(wait)
  {
    hide Remains, PipesConnected, Leaves, Met;
    match wait
    case InputReadable(i) => InputTurns(a, ids, b, i);
    case PipeReadable(p) => PipeTurns(a, ids, b, p, false);
    case PipeWritable(p) => PipeTurns(a, ids, b, p, true);
  }

  /** Among the references given back are all those to one end of a pipe whose other end stays, and a
      task waits for that end to close. */
  ghost predicate StrandedBy(s: S.Scheduler, a: Arena, ids: multiset<Id>) {
    exists id :: Leaves(a, ids, id) && exists pid :: S.WaitsFor(s, pid, EndWait(a.descriptions[id].description).value)
  }

  /** Giving back references quietly strands a task exactly in that case. */
  lemma StrandsExactly(s: S.Scheduler, a: Arena, ids: multiset<Id>, b: Arena)
    requires PipesConnected(a) && PipesConnected(b) && Remains(a, ids, b) && NoneStranded(s, a)
    ensures NoneStranded(s, b) <==> !StrandedBy(s, a, ids)
  {
    hide PipesConnected, S.WaitsFor, Met;
    if StrandedBy(s, a, ids) {
      var id :| Leaves(a, ids, id) && exists pid :: S.WaitsFor(s, pid, EndWait(a.descriptions[id].description).value);
      var wait := EndWait(a.descriptions[id].description).value;
      var pid :| S.WaitsFor(s, pid, wait);
      Turns(a, ids, b, wait);
      assert Met(b, wait);
    } else {
      forall pid, wait | S.WaitsFor(s, pid, wait)
        ensures Known(b, wait) && !Met(b, wait)
      {
        Turns(a, ids, b, wait);
      }
    }
  }

  // ----- Where the interpreter closes quietly -----

  lemma AwakeParts(x: System)
    requires Awake(x)
    ensures Sound(x.world) && PipesConnected(x.world.arena) && NoneStranded(x.sched, x.world.arena)
    ensures S.Ordered(x.sched)
  {
    hide Counted, NoneDangles, TablesSound, Within, LocksAgree, NoneStranded, S.Ordered;
  }

  lemma SoundPipes(w: World)
    requires Sound(w)
    ensures PipesConnected(w.arena)
  {
    hide Counted, NoneDangles, TablesSound, Within, LocksAgree;
  }

  lemma HandlesAffordable(w: World, ids: multiset<Id>)
    requires Sound(w) && ids <= w.handles
    ensures Affordable(w.arena, ids)
  {
    hide ArenaSound, TablesSound, Owners;
    forall id | id in ids
      ensures id in w.arena.descriptions && ids[id] <= w.arena.descriptions[id].references
    {
      assert id in w.handles && CountedAt(w, id);
    }
  }

  /** References the machine holds, given back without telling the scheduler. */
  function QuietDrop(x: System, ids: seq<Id>): System {
    x.(world := x.world.(arena := ReleaseAll(x.world.arena, ids), handles := x.world.handles - multiset(ids)))
  }

  /** Dropping any number of references leaves every task rightly blocked exactly when they strand none. */
  lemma QuietDropExactly(x: System, ids: seq<Id>)
    requires Awake(x) && multiset(ids) <= x.world.handles
    ensures Awake(QuietDrop(x, ids)) <==> !StrandedBy(x.sched, x.world.arena, multiset(ids))
  {
    hide Sound, S.Ordered, NoneStranded, StrandedBy, PipesConnected, ReleaseAll, Remains, Affordable;
    AwakeParts(x);
    GivenAllSound(x.world, ids);
    SoundPipes(QuietDrop(x, ids).world);
    HandlesAffordable(x.world, multiset(ids));
    ReleaseAllRemains(x.world.arena, ids);
    StrandsExactly(x.sched, x.world.arena, multiset(ids), ReleaseAll(x.world.arena, ids));
  }

  /** A redirection that stays drops the table saved for undoing it. */
  function CommitRedirects(x: System, saved: Table): System {
    QuietDrop(x, Named(saved.entries))
  }

  lemma CommitRedirectsExactly(x: System, saved: Table)
    requires Awake(x) && multiset(Named(saved.entries)) <= x.world.handles
    ensures Awake(CommitRedirects(x, saved)) <==> !StrandedBy(x.sched, x.world.arena, multiset(Named(saved.entries)))
  {
    hide Awake, StrandedBy, Named;
    QuietDropExactly(x, Named(saved.entries));
  }

  /** A redirection that ends closes the table in use and puts the saved one back. */
  function RestoreFds(x: System, pid: Pid, saved: Table): System {
    x.(world := World(ReleaseAll(x.world.arena, Named(TableOf(x.world, pid).entries)), x.world.tables[pid := saved],
                      x.world.handles - multiset(Named(saved.entries))))
  }

  lemma {:induction false} EntriesAffordable(w: World, pid: Pid)
    requires Sound(w)
    ensures Affordable(w.arena, multiset(Named(TableOf(w, pid).entries)))
  {
    hide Sound, Named, Affordable;
    if pid in w.tables {
      TakenAllSound(w, pid, w.tables[pid].entries);
      HandlesAffordable(TakenAll(w, pid, w.tables[pid].entries), multiset(Named(w.tables[pid].entries)));
    } else {
      NamedNone();
      NothingAffordable(w.arena);
    }
  }

  lemma NothingAffordable(a: Arena)
    ensures Affordable(a, multiset([]))
  {
  }

  /** A world with a process's table closed. */
  lemma ClosedTableSound(w: World, pid: Pid)
    requires Sound(w)
    ensures Sound(World(ReleaseAll(w.arena, Named(TableOf(w, pid).entries)), w.tables[pid := EmptyTable], w.handles))
  {
    hide Sound, Named, ReleaseAll;
    if pid in w.tables {
      var t := w.tables[pid];
      CloseSomeSound(w, pid, t.entries);
      var v := World(ReleaseAll(w.arena, Named(t.entries)),
                     w.tables[pid := Table(t.entries - t.entries.Keys, t.closeOnExec - t.entries.Keys)], w.handles);
      assert t.entries - t.entries.Keys == map[];
      EmptyTableSound(v, pid);
      assert v.tables[pid := EmptyTable] == w.tables[pid := EmptyTable];
    } else {
      EmptyTableSound(w, pid);
      NothingReleased(w.arena);
    }
  }

  lemma NothingReleased(a: Arena)
    ensures ReleaseAll(a, Named(map[])) == a
  {
    NamedNone();
  }

  /** References the machine holds become a process's whole table. */
  lemma SavedTableSound(w: World, pid: Pid, saved: Table)
    requires Sound(w) && pid in w.tables && w.tables[pid] == EmptyTable && TableSound(saved)
    requires multiset(Named(saved.entries)) <= w.handles
    ensures Sound(World(w.arena, w.tables[pid := saved], w.handles - multiset(Named(saved.entries))))
  {
    hide Sound, Named;
    PutAllSound(w, pid, saved.entries);
    var v := PutAll(w, pid, saved.entries);
    assert map[] + saved.entries == saved.entries;
    FlagsSound(v, pid, saved.closeOnExec);
    assert v.tables[pid := saved] == w.tables[pid := saved];
  }

  lemma RestoreSound(x: System, pid: Pid, saved: Table)
    requires Sound(x.world) && TableSound(saved) && multiset(Named(saved.entries)) <= x.world.handles
    ensures Sound(RestoreFds(x, pid, saved).world)
  {
    hide Sound, Named, ReleaseAll, TableSound;
    ClosedTableSound(x.world, pid);
    var w := World(ReleaseAll(x.world.arena, Named(TableOf(x.world, pid).entries)), x.world.tables[pid := EmptyTable],
                   x.world.handles);
    SavedTableSound(w, pid, saved);
    assert w.tables[pid := saved] == x.world.tables[pid := saved];
  }

  lemma RestoreFdsExactly(x: System, pid: Pid, saved: Table)
    requires Awake(x) && TableSound(saved) && multiset(Named(saved.entries)) <= x.world.handles
    ensures Awake(RestoreFds(x, pid, saved)) <==>
            !StrandedBy(x.sched, x.world.arena, multiset(Named(TableOf(x.world, pid).entries)))
  {
    hide Sound, S.Ordered, NoneStranded, StrandedBy, PipesConnected, ReleaseAll, Remains, Affordable, Named, TableSound;
    AwakeParts(x);
    RestoreSound(x, pid, saved);
    TableGone(x, RestoreFds(x, pid, saved).world, pid);
  }

  /** Closing the whole table of a process, whatever else changes with it. */
  lemma TableGone(x: System, w: World, pid: Pid)
    requires Awake(x) && Sound(w) && w.arena == ReleaseAll(x.world.arena, Named(TableOf(x.world, pid).entries))
    ensures NoneStranded(x.sched, w.arena) <==> !StrandedBy(x.sched, x.world.arena,
                                                            multiset(Named(TableOf(x.world, pid).entries)))
  {
    hide Sound, S.Ordered, NoneStranded, StrandedBy, PipesConnected, ReleaseAll, Remains, Affordable, Named;
    var ids := Named(TableOf(x.world, pid).entries);
    AwakeParts(x);
    SoundPipes(w);
    EntriesAffordable(x.world, pid);
    ReleaseAllRemains(x.world.arena, ids);
    StrandsExactly(x.sched, x.world.arena, multiset(ids), w.arena);
  }

  /** A child whose setup failed goes before it ever ran. */
  function CancelChild(x: System, pid: Pid): System {
    System(Step(x.world, Exits(pid)), S.DiscardRunnable(x.sched, pid))
  }

  lemma CancelChildExactly(x: System, pid: Pid)
    requires Awake(x)
    ensures Awake(CancelChild(x, pid)) <==>
            !StrandedBy(x.sched, x.world.arena, multiset(Named(TableOf(x.world, pid).entries)))
  {
    hide Sound, S.Ordered, NoneStranded, StrandedBy, Named, Step, S.DiscardRunnable, ReleaseAll;
    AwakeParts(x);
    ExitSound(x.world, pid);
    ExitStep(x.world, pid);
    S.DiscardOrdered(x.sched, pid);
    DiscardWaits(x.sched, pid, Step(x.world, Exits(pid)).arena);
    TableGone(x, Step(x.world, Exits(pid)), pid);
  }

  /** A runnable task that is discarded was waiting for nothing. */
  lemma DiscardWaits(s: S.Scheduler, pid: Pid, a: Arena)
    ensures NoneStranded(S.DiscardRunnable(s, pid), a) <==> NoneStranded(s, a)
  {
    hide S.Accepts, Met, Known, S.Without;
    var t := S.DiscardRunnable(s, pid);
    forall other, wait
      ensures S.WaitsFor(s, other, wait) <==> S.WaitsFor(t, other, wait)
    {
    }
  }

  /** A description installed over a used number. */
  function InstallOver(x: System, pid: Pid, fd: Fd, id: Id): System {
    x.(world := Step(x.world, Installs(pid, fd, id)))
  }

  /** The install goes through and replaces another description. */
  predicate Replaces(w: World, pid: Pid, fd: Fd, id: Id) {
    fd >= 0 && fd in TableOf(w, pid).entries && TableOf(w, pid).entries[fd] != id && Retain(w.arena, id).1.Success?
  }

  /** Installing strands a task exactly when it takes the last reference to such an end from a number. */
  lemma InstallOverExactly(x: System, pid: Pid, fd: Fd, id: Id)
    requires Awake(x)
    ensures Awake(InstallOver(x, pid, fd, id)) <==>
            !(Replaces(x.world, pid, fd, id) && StrandedBy(x.sched, x.world.arena,
                                                           multiset{TableOf(x.world, pid).entries[fd]}))
  {
    hide Sound, S.Ordered, NoneStranded, StrandedBy, Step, Install;
    AwakeParts(x);
    InstallSound(x.world, pid, fd, id);
    InstallArena(x.world, pid, fd, id);
    if Replaces(x.world, pid, fd, id) {
      ReplacedExactly(x, pid, fd, id);
    } else {
      KeptQuiet(x.world, pid, fd, id);
      QuietAwake(x, Step(x.world, Installs(pid, fd, id)));
    }
  }

  lemma InstallArena(w: World, pid: Pid, fd: Fd, id: Id)
    ensures Step(w, Installs(pid, fd, id)).arena == Install(w.arena, TableOf(w, pid), fd, id).0
  {
    hide Install;
  }

  /** An install that replaces nothing, or a description by itself, makes no condition true. */
  lemma KeptQuiet(w: World, pid: Pid, fd: Fd, id: Id)
    requires Sound(w) && !Replaces(w, pid, fd, id)
    ensures Covers(w.arena, Install(w.arena, TableOf(w, pid), fd, id).0, [])
  {
    hide Sound, Covers, Install;
    var t := TableOf(w, pid);
    InstallCovers(w.arena, t, fd, id);
    if fd in t.entries {
      CoversNone(w.arena);
      if t.entries[fd] == id {
        SameAgain(w, pid, fd);
      } else {
        Unchanged(w.arena, t, fd, id);
      }
    }
  }

  lemma Unchanged(a: Arena, t: Table, fd: Fd, id: Id)
    requires fd in t.entries && (fd < 0 || Retain(a, id).1.Failure?)
    ensures Install(a, t, fd, id).0 == a
  {
    hide Retain, Release;
    RetainFails(a, id);
  }

  lemma SameAgain(w: World, pid: Pid, fd: Fd)
    requires Sound(w) && fd in TableOf(w, pid).entries
    ensures Covers(w.arena, Install(w.arena, TableOf(w, pid), fd, TableOf(w, pid).entries[fd]).0, [])
  {
    hide Sound, Covers, Drop;
    var id := TableOf(w, pid).entries[fd];
    CoversNone(w.arena);
    EntryLives(w, pid, fd);
    var d := w.arena.descriptions;
    assert d[id := d[id].(references := d[id].references + 1)][id := d[id]] == d;
  }

  lemma EntryLives(w: World, pid: Pid, fd: Fd)
    requires Sound(w) && fd in TableOf(w, pid).entries
    ensures TableOf(w, pid).entries[fd] in w.arena.descriptions
    ensures w.arena.descriptions[TableOf(w, pid).entries[fd]].references > 0
  {
    hide ArenaSound, TablesSound;
    var id := TableOf(w, pid).entries[fd];
    assert (pid, fd) in Owners(w.tables, id) && CountedAt(w, id);
  }

  lemma ReplacedExactly(x: System, pid: Pid, fd: Fd, id: Id)
    requires Awake(x) && Replaces(x.world, pid, fd, id)
    ensures NoneStranded(x.sched, Install(x.world.arena, TableOf(x.world, pid), fd, id).0) <==>
            !StrandedBy(x.sched, x.world.arena, multiset{TableOf(x.world, pid).entries[fd]})
  {
    hide Sound, S.Ordered, NoneStranded, StrandedBy, PipesConnected, Remains, Release, Covers;
    var w, previous := x.world, TableOf(x.world, pid).entries[fd];
    AwakeParts(x);
    HeldSound(w, id);
    RetainCovers(w.arena, id);
    QuietAwake(x, Held(w, id));
    AwakeParts(x.(world := Held(w, id)));
    EntryLives(w, pid, fd);
    ReplaceSound(Held(w, id), pid, fd, id);
    ReleaseRemains(Held(w, id).arena, previous);
    ReplacedPipes(w, pid, fd, id);
    StrandsExactly(x.sched, Held(w, id).arena, multiset{previous}, Release(Held(w, id).arena, previous).0);
    OneMoreElsewhere(x.sched, w.arena, id, previous);
  }

  lemma ReplacedPipes(w: World, pid: Pid, fd: Fd, id: Id)
    requires Sound(w) && Replaces(w, pid, fd, id)
    ensures PipesConnected(Release(Held(w, id).arena, TableOf(w, pid).entries[fd]).0)
    ensures Install(w.arena, TableOf(w, pid), fd, id).0 == Release(Held(w, id).arena, TableOf(w, pid).entries[fd]).0
  {
    hide Sound, Release, PipesConnected;
    HeldSound(w, id);
    ReplaceSound(Held(w, id), pid, fd, id);
    var t := w.tables[pid];
    SoundPipes(World(Release(Held(w, id).arena, t.entries[fd]).0,
                     w.tables[pid := Table(t.entries[fd := id], t.closeOnExec - {fd})],
                     Held(w, id).handles - multiset{id}));
  }

  /** A reference to one description does not matter to giving back another. */
  lemma OneMoreElsewhere(s: S.Scheduler, a: Arena, id: Id, other: Id)
    requires id in a.descriptions && other in a.descriptions && id != other
    ensures var b := WithReferences(a, id, a.descriptions[id].references + 1);
            StrandedBy(s, b, multiset{other}) <==> StrandedBy(s, a, multiset{other})
  {
    hide S.WaitsFor;
    var b := WithReferences(a, id, a.descriptions[id].references + 1);
    forall d
      ensures Leaves(a, multiset{other}, d) <==> Leaves(b, multiset{other}, d)
    {
      SameLeaves(a, id, other, d);
    }
  }

  lemma SameLeaves(a: Arena, id: Id, other: Id, d: Id)
    requires id in a.descriptions && other in a.descriptions && id != other
    ensures var b := WithReferences(a, id, a.descriptions[id].references + 1);
            Leaves(a, multiset{other}, d) <==> Leaves(b, multiset{other}, d)
  {
    var b := WithReferences(a, id, a.descriptions[id].references + 1);
    assert forall x :: x in a.descriptions ==> b.descriptions[x].description == a.descriptions[x].description;
    assert forall x :: Goes(a, multiset{other}, x) <==> Goes(b, multiset{other}, x);
  }

  // ----- A stranded reader -----

  /** Task 2 waits to read an empty pipe whose writing end has `n` references, all of them saved. */
  function WaitingReader(n: nat): System {
    System(
      World(Arena(3, 2, map[1 := Entry(PipeReader(1), 1, false, None), 2 := Entry(PipeWriter(1), n, false, None)],
                  map[1 := Pipe([], PIPE_CAPACITY, 1, 1)], false, 0),
            map[2 := Table(map[0 := 1], {})], multiset{}[2 := n]),
      S.Scheduler(map[1 := S.Running, 2 := S.Waiting(S.Io(PipeReadable(1)))], [], [2], Some(1)))
  }

  /** Dropping `k` of the references quietly strands task 2 exactly when they are all there are: no one
      of several does, and all of them together do. */
  lemma QuietDropStrands(n: nat, k: nat)
    requires 0 < n && k <= n
    ensures Awake(WaitingReader(n)) && multiset(seq(k, _ => 2)) <= WaitingReader(n).world.handles
    ensures Awake(QuietDrop(WaitingReader(n), seq(k, _ => 2))) <==> k < n
  {
    hide Awake, QuietDrop, StrandedBy;
    var x := WaitingReader(n);
    WaitingReaderAwake(n);
    Repeated(k, 2);
    QuietDropExactly(x, seq(k, _ => 2));
    WaitingReaderStranded(n, k);
  }

  lemma {:induction false} Repeated(k: nat, id: Id)
    ensures multiset(seq(k, _ => id)) == multiset{}[id := k]
  {
    if k > 0 {
      Repeated(k - 1, id);
      assert seq(k, _ => id) == seq(k - 1, _ => id) + [id];
    } else {
      assert seq(k, _ => id) == [];
    }
  }

  lemma WaitingReaderStranded(n: nat, k: nat)
    requires 0 < n && k <= n
    ensures StrandedBy(WaitingReader(n).sched, WaitingReader(n).world.arena, multiset{}[2 := k]) <==> k == n
  {
    var x := WaitingReader(n);
    var a, ids := x.world.arena, multiset{}[2 := k];
    assert Goes(a, ids, 2) <==> k == n;
    assert !Goes(a, ids, 1);
    if k == n {
      assert a.descriptions[1].description == End(1, true) && a.descriptions[2].description.pipe == 1;
      assert Stays(a, ids, 1, true);
      assert Leaves(a, ids, 2);
      assert EndWait(a.descriptions[2].description) == Some(PipeReadable(1));
      assert S.WaitsFor(x.sched, 2, PipeReadable(1));
    }
  }

  lemma WaitingReaderAwake(n: nat)
    requires 0 < n
    ensures Awake(WaitingReader(n))
  {
    hide Counted, ArenaSound, S.Ordered, NoneStranded;
    WaitingReaderCounted(n);
    WaitingReaderArena(n);
    WaitingReaderOrdered(n);
  }

  lemma WaitingReaderCounted(n: nat)
    ensures Counted(WaitingReader(n).world)
  {
    hide Owners;
    var w := WaitingReader(n).world;
    WaitingReaderOwners(n);
    assert CountedAt(w, 1) && CountedAt(w, 2);
  }

  lemma WaitingReaderOwners(n: nat)
    ensures Owners(WaitingReader(n).world.tables, 1) == {(2, 0)} && Owners(WaitingReader(n).world.tables, 2) == {}
  {
    var tables := WaitingReader(n).world.tables;
    assert tables[2].entries[0] == 1;
    assert forall pid, fd :: pid in tables && fd in tables[pid].entries ==> pid == 2 && fd == 0;
  }

  lemma WaitingReaderArena(n: nat)
    ensures ArenaSound(WaitingReader(n).world.arena)
  {
    hide Ends;
    var a := WaitingReader(n).world.arena;
    WaitingReaderEnds(n);
    assert Connected(a, 1);
  }

  lemma WaitingReaderEnds(n: nat)
    ensures Ends(WaitingReader(n).world.arena, 1, true) == {1} && Ends(WaitingReader(n).world.arena, 1, false) == {2}
  {
  }

  lemma WaitingReaderOrdered(n: nat)
    ensures S.Ordered(WaitingReader(n).sched) && NoneStranded(WaitingReader(n).sched, WaitingReader(n).world.arena)
  {
  }
}
