// Every run of the descriptor operations over any number of process tables and machine handles:
// reference counts, pipe ends, close-on-exec flags and locks stay consistent.

module DescriptorRuns {
  import opened Basics
  import opened Descriptors

  type Pid = nat

  /** The arena, the descriptor table of every process, and the references the machine itself holds. */
  datatype World = World(arena: Arena, tables: map<Pid, Table>, handles: multiset<Id>)

  datatype Event =
    | Open(description: Description)
    | MakePipe(capacity: nat)
    | Forget(id: Id)
    | Installs(pid: Pid, fd: Fd, id: Id)
    | Dups(pid: Pid, source: Fd, destination: Fd)
    | Closes(pid: Pid, fd: Fd)
    | Flags(pid: Pid, fd: Fd, enabled: bool)
    | Execs(pid: Pid)
    | Forks(pid: Pid, child: Pid)
    | Exits(pid: Pid)
    | Holds(id: Id)
    | Drops(id: Id)
    | Locks(id: Id, inode: nat, mode: Option<Mode>)
    | TakesChanges
    | Reads(id: Id, maximum: nat)
    | Writes(id: Id, bytes: seq<Byte>)
    | Feeds(id: Id, bytes: seq<Byte>)
    | Shuts(id: Id)
    | Drains(id: Id)

  const Start: World := World(EmptyArena, map[], multiset{})

  function WithTable(w: World, pid: Pid, a: Arena, t: Table): World {
    w.(arena := a, tables := w.tables[pid := t])
  }

  /** A process that has no table yet starts with an empty one. */
  function TableOf(w: World, pid: Pid): Table {
    if pid in w.tables then w.tables[pid] else EmptyTable
  }

  function Step(w: World, e: Event): World {
    match e
    case Open(d) => if d.PipeReader? || d.PipeWriter? then w else w.(arena := Allocate(w.arena, d).0)
    case MakePipe(capacity) => w.(arena := OpenPipe(w.arena, capacity).0)
    case Forget(id) => w.(arena := Discard(w.arena, id).0)
    case Installs(pid, fd, id) => var r := Install(w.arena, TableOf(w, pid), fd, id); WithTable(w, pid, r.0, r.1)
    case Dups(pid, source, destination) =>
      var r := Duplicate(w.arena, TableOf(w, pid), source, destination); WithTable(w, pid, r.0, r.1)
    case Closes(pid, fd) => var r := Close(w.arena, TableOf(w, pid), fd); WithTable(w, pid, r.0, r.1)
    case Flags(pid, fd, enabled) => WithTable(w, pid, w.arena, SetCloseOnExec(TableOf(w, pid), fd, enabled).0)
    case Execs(pid) => var r := CloseForExec(w.arena, TableOf(w, pid)); WithTable(w, pid, r.0, r.1)
    case Forks(pid, child) =>
      if child in w.tables then w
      else (match Fork(w.arena, TableOf(w, pid))
            case (a, Failure(_)) => w.(arena := a)
            case (a, Success(t)) => WithTable(w, child, a, t))
    case Exits(pid) => var r := CloseAll(w.arena, TableOf(w, pid)); World(r.0, w.tables - {pid}, w.handles)
    case Holds(id) =>
      var r := Retain(w.arena, id);
      w.(arena := r.0, handles := if r.1.Success? then w.handles + multiset{id} else w.handles)
    case Drops(id) =>
      if id !in w.handles then w else w.(arena := Release(w.arena, id).0, handles := w.handles - multiset{id})
    case Locks(id, inode, mode) => w.(arena := SetLock(w.arena, id, inode, mode).0)
    case TakesChanges => w.(arena := w.arena.(locksChanged := false))
    case Reads(id, maximum) => w.(arena := Read(w.arena, id, maximum).0)
    case Writes(id, bytes) => w.(arena := Write(w.arena, id, bytes).0)
    case Feeds(id, bytes) => w.(arena := AppendInput(w.arena, id, bytes).0)
    case Shuts(id) => w.(arena := CloseInput(w.arena, id).0)
    case Drains(id) => w.(arena := DrainCapture(w.arena, id).0)
  }

  function Run(w: World, events: seq<Event>): World
    decreases |events|
  {
    if events == [] then w else Run(Step(w, events[0]), events[1..])
  }

  // ----- What every run keeps -----

  /** The table entries that name a description. */
  function Owners(tables: map<Pid, Table>, id: Id): set<(Pid, Fd)> {
    set pid, fd | pid in tables && fd in tables[pid].entries && tables[pid].entries[fd] == id :: (pid, fd)
  }

  /** The live descriptions that are one end of a pipe. */
  function Ends(a: Arena, p: PipeId, reader: bool): set<Id> {
    set id | id in a.descriptions && a.descriptions[id].description == End(p, reader)
  }

  function End(p: PipeId, reader: bool): Description {
    if reader then PipeReader(p) else PipeWriter(p)
  }

  /** A description's count is the number of table entries and machine handles that name it. */
  ghost predicate CountedAt(w: World, id: Id)
    requires id in w.arena.descriptions
  {
    w.arena.descriptions[id].references == |Owners(w.tables, id)| + w.handles[id]
  }

  ghost predicate Counted(w: World) {
    forall id :: id in w.arena.descriptions ==> CountedAt(w, id)
  }

  /** Nothing names a description that is gone. */
  ghost predicate NoneDangles(w: World) {
    && (forall pid, fd :: pid in w.tables && fd in w.tables[pid].entries ==>
          w.tables[pid].entries[fd] in w.arena.descriptions)
    && (forall id :: id in w.handles ==> id in w.arena.descriptions)
  }

  predicate IsEnd(d: Description) {
    d.PipeReader? || d.PipeWriter?
  }

  /** A pipe's counts are the numbers of its live ends, each at most one, not both zero. */
  ghost predicate Connected(a: Arena, p: PipeId)
    requires p in a.pipes
  {
    && a.pipes[p].readers == |Ends(a, p, true)| <= 1 && a.pipes[p].writers == |Ends(a, p, false)| <= 1
    && a.pipes[p].readers + a.pipes[p].writers > 0
  }

  ghost predicate PipesConnected(a: Arena) {
    && (forall p :: p in a.pipes ==> Connected(a, p))
    && (forall id :: id in a.descriptions && IsEnd(a.descriptions[id].description) ==>
          a.descriptions[id].description.pipe in a.pipes)
  }

  ghost predicate Within(a: Arena) {
    && |a.descriptions| <= MAX_DESCRIPTIONS && |a.pipes| <= MAX_PIPES
    && (forall id :: id in a.descriptions ==> id < a.nextId)
    && (forall p :: p in a.pipes ==> p < a.nextPipe && PipeWithin(a.pipes[p]))
  }

  predicate PipeWithin(pipe: Pipe) {
    |pipe.bytes| <= pipe.capacity && 0 < pipe.capacity <= PIPE_CAPACITY
  }

  /** Two descriptions never hold conflicting locks on one inode. */
  ghost predicate LocksAgree(a: Arena) {
    forall x, y :: x in a.descriptions && y in a.descriptions && x != y ==>
      Agree(a.descriptions[x].lock, a.descriptions[y].lock)
  }

  ghost predicate TableSound(t: Table) {
    t.closeOnExec <= t.entries.Keys && |t.entries| <= MAX_FDS && forall fd :: fd in t.entries ==> fd >= 0
  }

  ghost predicate ArenaSound(a: Arena) {
    PipesConnected(a) && Within(a) && LocksAgree(a)
  }

  ghost predicate Sound(w: World) {
    Counted(w) && NoneDangles(w) && ArenaSound(w.arena) && TablesSound(w)
  }

  ghost predicate TablesSound(w: World) {
    forall pid :: pid in w.tables ==> TableSound(w.tables[pid])
  }

  // ----- The arena -----

  /** Two entries that differ only in count and stream. */
  predicate EntryAlike(x: Entry, y: Entry) {
    x.lock == y.lock && (x.description == y.description || (!IsEnd(x.description) && !IsEnd(y.description)))
  }

  predicate PipeAlike(x: Pipe, y: Pipe) {
    x == y.(bytes := x.bytes) && |y.bytes| <= y.capacity
  }

  /** Two arenas that differ only in counts, streams and buffered bytes. */
  ghost predicate Alike(a: Arena, b: Arena) {
    && a.descriptions.Keys == b.descriptions.Keys && a.pipes.Keys == b.pipes.Keys && a.nextId == b.nextId
    && a.nextPipe == b.nextPipe
    && (forall id :: id in a.descriptions ==> EntryAlike(a.descriptions[id], b.descriptions[id]))
    && (forall p :: p in a.pipes ==> PipeAlike(a.pipes[p], b.pipes[p]))
  }

  lemma EndsAlike(a: Arena, b: Arena, p: PipeId, reader: bool)
    requires Alike(a, b)
    ensures Ends(a, p, reader) == Ends(b, p, reader)
  {
    forall id | id in a.descriptions
      ensures id in Ends(a, p, reader) <==> id in Ends(b, p, reader)
    {
      assert EntryAlike(a.descriptions[id], b.descriptions[id]);
    }
  }

  lemma PipesAlike(a: Arena, b: Arena)
    requires PipesConnected(a) && Alike(a, b)
    ensures PipesConnected(b)
  {
    hide Ends;
    forall p | p in b.pipes
      ensures Connected(b, p)
    {
      assert Connected(a, p) && PipeAlike(a.pipes[p], b.pipes[p]);
      EndsAlike(a, b, p, true);
      EndsAlike(a, b, p, false);
    }
    forall id | id in b.descriptions && IsEnd(b.descriptions[id].description)
      ensures b.descriptions[id].description.pipe in b.pipes
    {
      assert EntryAlike(a.descriptions[id], b.descriptions[id]);
    }
  }

  lemma WithinAlike(a: Arena, b: Arena)
    requires Within(a) && Alike(a, b)
    ensures Within(b)
  {
    assert |a.descriptions| == |a.descriptions.Keys| && |b.descriptions| == |b.descriptions.Keys|;
    assert |a.pipes| == |a.pipes.Keys| && |b.pipes| == |b.pipes.Keys|;
    forall p | p in b.pipes
      ensures p < b.nextPipe && PipeWithin(b.pipes[p])
    {
      assert PipeAlike(a.pipes[p], b.pipes[p]) && PipeWithin(a.pipes[p]);
    }
  }

  /** The locks two descriptions hold agree. */
  predicate Agree(x: Option<Lock>, y: Option<Lock>) {
    x.Some? ==> !Conflict(y, x.value.inode, x.value.mode)
  }

  lemma AlikeSound(a: Arena, b: Arena)
    requires ArenaSound(a) && Alike(a, b)
    ensures ArenaSound(b)
  {
    hide PipesConnected, Within, Agree;
    PipesAlike(a, b);
    WithinAlike(a, b);
    forall x, y | x in b.descriptions && y in b.descriptions && x != y
      ensures Agree(b.descriptions[x].lock, b.descriptions[y].lock)
    {
      assert EntryAlike(a.descriptions[x], b.descriptions[x]) && EntryAlike(a.descriptions[y], b.descriptions[y]);
    }
  }

  lemma ReferencesSound(a: Arena, id: Id, references: nat)
    requires ArenaSound(a) && id in a.descriptions
    ensures ArenaSound(WithReferences(a, id, references))
  {
    hide ArenaSound;
    BytesWithin(a);
    AlikeSound(a, WithReferences(a, id, references));
  }

  lemma BytesWithin(a: Arena)
    requires ArenaSound(a)
    ensures forall p :: p in a.pipes ==> PipeWithin(a.pipes[p])
  {
    hide PipesConnected, LocksAgree;
  }

  lemma ReadSound(a: Arena, id: Id, maximum: nat)
    requires ArenaSound(a)
    ensures ArenaSound(Read(a, id, maximum).0)
  {
    hide ArenaSound;
    BytesWithin(a);
    AlikeSound(a, Read(a, id, maximum).0);
  }

  lemma WriteSound(a: Arena, id: Id, bytes: seq<Byte>)
    requires ArenaSound(a)
    ensures ArenaSound(Write(a, id, bytes).0)
  {
    hide ArenaSound;
    BytesWithin(a);
    AlikeSound(a, Write(a, id, bytes).0);
  }

  /** Replacing a stream that is no pipe end by another. */
  lemma StreamSound(a: Arena, id: Id, d: Description)
    requires ArenaSound(a) && id in a.descriptions && !IsEnd(a.descriptions[id].description) && !IsEnd(d)
    ensures ArenaSound(WithDescription(a, id, d))
  {
    hide ArenaSound;
    BytesWithin(a);
    AlikeSound(a, WithDescription(a, id, d));
  }

  lemma AppendSound(a: Arena, id: Id, bytes: seq<Byte>)
    requires ArenaSound(a)
    ensures ArenaSound(AppendInput(a, id, bytes).0)
  {
    hide ArenaSound, WithDescription;
    if id in a.descriptions && a.descriptions[id].description.Input? {
      var d := a.descriptions[id].description;
      StreamSound(a, id, Input(d.bytes + bytes, d.cursor, d.closed));
    }
  }

  lemma CloseInputSound(a: Arena, id: Id)
    requires ArenaSound(a)
    ensures ArenaSound(CloseInput(a, id).0)
  {
    hide ArenaSound, WithDescription;
    if id in a.descriptions && a.descriptions[id].description.Input? {
      var d := a.descriptions[id].description;
      StreamSound(a, id, Input(d.bytes, d.cursor, true));
    }
  }

  lemma DrainSound(a: Arena, id: Id)
    requires ArenaSound(a)
    ensures ArenaSound(DrainCapture(a, id).0)
  {
    hide ArenaSound, WithDescription;
    if id in a.descriptions && a.descriptions[id].description.Capture? {
      var d := a.descriptions[id].description;
      StreamSound(a, id, Capture(d.bytes, |d.bytes|));
    }
  }

  /** What dropping a description does to descriptions and pipes. */
  lemma Dropped(a: Arena, id: Id)
    requires id in a.descriptions
    ensures var b, d := Drop(a, id), a.descriptions[id].description;
            && b.descriptions == a.descriptions - {id} && b.nextId == a.nextId && b.nextPipe == a.nextPipe
            && b.pipes == if IsEnd(d) then Disconnect(a.pipes, d.pipe, d.PipeReader?) else a.pipes
  {
  }

  lemma EndsOfDrop(a: Arena, id: Id, p: PipeId, reader: bool)
    requires id in a.descriptions
    ensures Ends(Drop(a, id), p, reader) == Ends(a, p, reader) - {id}
    ensures id in Ends(a, p, reader) <==> a.descriptions[id].description == End(p, reader)
  {
    hide Drop;
    Dropped(a, id);
  }

  lemma DropConnected(a: Arena, id: Id, p: PipeId)
    requires id in a.descriptions && p in a.pipes && Connected(a, p) && p in Drop(a, id).pipes
    ensures Connected(Drop(a, id), p)
  {
    hide Drop, Ends;
    Dropped(a, id);
    EndsOfDrop(a, id, p, true);
    EndsOfDrop(a, id, p, false);
  }

  lemma DropKeepsPipe(a: Arena, id: Id, other: Id)
    requires id in a.descriptions && other in a.descriptions && other != id && IsEnd(a.descriptions[other].description)
    requires a.descriptions[other].description.pipe in a.pipes && Connected(a, a.descriptions[other].description.pipe)
    ensures a.descriptions[other].description.pipe in Drop(a, id).pipes
  {
    hide Drop;
    Dropped(a, id);
    var d := a.descriptions[other].description;
    assert other in Ends(a, d.pipe, d.PipeReader?);
    if a.descriptions[id].description == d {
      assert {id, other} <= Ends(a, d.pipe, d.PipeReader?);
      SubsetSmaller({id, other}, Ends(a, d.pipe, d.PipeReader?));
    }
  }

  lemma DropSound(a: Arena, id: Id)
    requires ArenaSound(a) && id in a.descriptions
    ensures ArenaSound(Drop(a, id))
  {
    hide Drop, Connected, Agree, Conflict, Disconnect;
    var b := Drop(a, id);
    Dropped(a, id);
    forall p | p in b.pipes
      ensures Connected(b, p)
    {
      DisconnectKeeps(a, id);
      DropConnected(a, id, p);
    }
    forall other | other in b.descriptions && IsEnd(b.descriptions[other].description)
      ensures b.descriptions[other].description.pipe in b.pipes
    {
      DropKeepsPipe(a, id, other);
    }
    DropWithin(a, id);
  }

  lemma DisconnectKeeps(a: Arena, id: Id)
    requires id in a.descriptions
    ensures Drop(a, id).pipes.Keys <= a.pipes.Keys
    ensures forall p :: p in Drop(a, id).pipes ==>
              Drop(a, id).pipes[p] == a.pipes[p].(readers := Drop(a, id).pipes[p].readers,
                                                  writers := Drop(a, id).pipes[p].writers)
  {
    hide Drop;
    Dropped(a, id);
  }

  lemma DropWithin(a: Arena, id: Id)
    requires Within(a) && id in a.descriptions
    ensures Within(Drop(a, id))
  {
    hide Drop, Disconnect;
    var b := Drop(a, id);
    Dropped(a, id);
    DisconnectKeeps(a, id);
    assert b.descriptions.Keys == a.descriptions.Keys - {id};
    assert |b.descriptions| == |b.descriptions.Keys| && |a.descriptions| == |a.descriptions.Keys|;
    assert |b.pipes| == |b.pipes.Keys| && |a.pipes| == |a.pipes.Keys|;
    SubsetSmaller(b.pipes.Keys, a.pipes.Keys);
  }

  // ----- New descriptions and pipes -----

  function NewEntry(d: Description): Entry {
    Entry(d, 0, false, None)
  }

  /** A description added to an arena, with nothing holding it. */
  function Added(a: Arena, id: Id, d: Description): Arena {
    a.(nextId := id + 1, descriptions := a.descriptions[id := NewEntry(d)])
  }

  lemma AddedEnds(a: Arena, id: Id, d: Description, p: PipeId, reader: bool)
    requires id !in a.descriptions
    ensures Ends(Added(a, id, d), p, reader) ==
            if d == End(p, reader) then Ends(a, p, reader) + {id} else Ends(a, p, reader)
    ensures id !in Ends(a, p, reader)
  {
  }

  lemma AddedOne(a: Arena, id: Id, d: Description)
    requires id !in a.descriptions
    ensures |Added(a, id, d).descriptions| == |a.descriptions| + 1 && Added(a, id, d).nextId == id + 1
    ensures Added(a, id, d).(nextId := a.nextId, descriptions := Added(a, id, d).descriptions - {id}) == a
  {
    MapAdded(a.descriptions, id, NewEntry(d));
  }

  lemma AllocateIs(a: Arena, d: Description)
    ensures Allocate(a, d) ==
            if |a.descriptions| >= MAX_DESCRIPTIONS || a.nextId >= U32_MAX then (a, Failure(DescriptionLimit))
            else (Added(a, a.nextId, d), Success(a.nextId))
  {
  }

  lemma AddedWithin(a: Arena, id: Id, d: Description)
    requires Within(a) && id >= a.nextId && |a.descriptions| < MAX_DESCRIPTIONS
    ensures Within(Added(a, id, d))
  {
    var b := Added(a, id, d);
    assert b.descriptions.Keys == a.descriptions.Keys + {id};
    assert |b.descriptions| == |b.descriptions.Keys| && |a.descriptions| == |a.descriptions.Keys|;
  }

  lemma AddedLocks(a: Arena, id: Id, d: Description)
    requires LocksAgree(a) && id !in a.descriptions
    ensures LocksAgree(Added(a, id, d))
  {
    var b := Added(a, id, d);
    forall x, y | x in b.descriptions && y in b.descriptions && x != y
      ensures Agree(b.descriptions[x].lock, b.descriptions[y].lock)
    {
    }
  }

  lemma AllocateSound(a: Arena, d: Description)
    requires ArenaSound(a) && !IsEnd(d)
    ensures ArenaSound(Allocate(a, d).0)
  {
    hide Ends, LocksAgree;
    if Allocate(a, d).1.Success? {
      var b := Added(a, a.nextId, d);
      AddedWithin(a, a.nextId, d);
      AddedLocks(a, a.nextId, d);
      forall p | p in b.pipes
        ensures Connected(b, p)
      {
        AddedEnds(a, a.nextId, d, p, true);
        AddedEnds(a, a.nextId, d, p, false);
        assert Connected(a, p);
      }
    }
  }

  /** An arena with a new pipe and its two ends. */
  function Piped(a: Arena, capacity: nat): Arena {
    Added(Added(Unended(a, capacity), a.nextId, PipeReader(a.nextPipe)), a.nextId + 1, PipeWriter(a.nextPipe))
  }

  /** What opening a pipe does: it adds the pipe with both ends, or only uses up identities. */
  ghost predicate PipeOpened(a: Arena, capacity: nat, b: Arena, r: Outcome<(Id, Id)>) {
    if r.Success? then
      && b == Piped(a, capacity) && r.value == (a.nextId, a.nextId + 1) && 0 < capacity <= PIPE_CAPACITY
      && |a.descriptions| + 1 < MAX_DESCRIPTIONS && |a.pipes| < MAX_PIPES
    else b == a.(nextId := b.nextId, nextPipe := b.nextPipe) && b.nextId >= a.nextId && b.nextPipe >= a.nextPipe
  }

  /** An arena with a new pipe that has no ends yet. */
  function Unended(a: Arena, capacity: nat): Arena {
    a.(nextPipe := a.nextPipe + 1, pipes := a.pipes[a.nextPipe := Pipe([], capacity, 1, 1)])
  }

  lemma OpenPipeExactly(a: Arena, capacity: nat)
    requires a.nextId !in a.descriptions && a.nextPipe !in a.pipes
    ensures PipeOpened(a, capacity, OpenPipe(a, capacity).0, OpenPipe(a, capacity).1)
  {
    hide Allocate, Added, Unended;
    var p := a.nextPipe;
    var a1 := Unended(a, capacity);
    UnendedIs(a, capacity);
    AllocateIs(a1, PipeReader(p));
    AddedOne(a1, a.nextId, PipeReader(p));
    var a2 := Added(a1, a.nextId, PipeReader(p));
    AllocateIs(a2, PipeWriter(p));
    PipeUndone(a, capacity, a1);
    EndUndone(a, capacity, a2);
  }

  lemma UnendedIs(a: Arena, capacity: nat)
    ensures Unended(a, capacity) == a.(nextPipe := a.nextPipe + 1,
                                       pipes := a.pipes[a.nextPipe := Pipe([], capacity, 1, 1)])
    ensures var b := Unended(a, capacity); b.descriptions == a.descriptions && b.nextId == a.nextId
  {
  }

  /** Taking a new pipe out again leaves only its number used up. */
  lemma PipeUndone(a: Arena, capacity: nat, b: Arena)
    requires a.nextPipe !in a.pipes && b == Unended(a, capacity)
    ensures b.(pipes := b.pipes - {a.nextPipe}) == a.(nextPipe := b.nextPipe)
  {
    MapAdded(a.pipes, a.nextPipe, Pipe([], capacity, 1, 1));
  }

  lemma EndUndone(a: Arena, capacity: nat, b: Arena)
    requires a.nextId !in a.descriptions && a.nextPipe !in a.pipes
    requires b == Added(Unended(a, capacity), a.nextId, PipeReader(a.nextPipe))
    ensures b.(descriptions := b.descriptions - {a.nextId}, pipes := b.pipes - {a.nextPipe}) ==
            a.(nextId := b.nextId, nextPipe := b.nextPipe)
  {
    hide Added;
    MapAdded(a.pipes, a.nextPipe, Pipe([], capacity, 1, 1));
    AddedOne(Unended(a, capacity), a.nextId, PipeReader(a.nextPipe));
  }

  lemma PipedConnected(a: Arena, capacity: nat, p: PipeId)
    requires PipesConnected(a) && Within(a) && p in Piped(a, capacity).pipes
    ensures Connected(Piped(a, capacity), p)
  {
    hide Ends, Added, Within;
    FreshEnds(a);
    PipedEnds(a, capacity, p, true);
    PipedEnds(a, capacity, p, false);
    PipedPipes(a, capacity);
    if p == a.nextPipe {
      NoEnds(a, p);
    } else {
      assert Connected(a, p);
    }
  }

  lemma FreshEnds(a: Arena)
    requires Within(a)
    ensures a.nextId !in a.descriptions && a.nextId + 1 !in a.descriptions && a.nextPipe !in a.pipes
  {
  }

  lemma PipedPipes(a: Arena, capacity: nat)
    ensures Piped(a, capacity).pipes == a.pipes[a.nextPipe := Pipe([], capacity, 1, 1)]
  {
  }

  lemma PipedEnds(a: Arena, capacity: nat, p: PipeId, reader: bool)
    requires a.nextId !in a.descriptions && a.nextId + 1 !in a.descriptions
    ensures |Ends(Piped(a, capacity), p, reader)| == |Ends(a, p, reader)| + if p == a.nextPipe then 1 else 0
  {
    hide Ends;
    var a1 := Unended(a, capacity);
    AddedEnds(a1, a.nextId, PipeReader(a.nextPipe), p, reader);
    AddedEnds(Added(a1, a.nextId, PipeReader(a.nextPipe)), a.nextId + 1, PipeWriter(a.nextPipe), p, reader);
    SamePipeEnds(a, a1, p);
  }

  lemma SamePipeEnds(a: Arena, b: Arena, p: PipeId)
    requires a.descriptions == b.descriptions
    ensures Ends(a, p, true) == Ends(b, p, true) && Ends(a, p, false) == Ends(b, p, false)
  {
  }

  lemma NoEnds(a: Arena, p: PipeId)
    requires PipesConnected(a) && p !in a.pipes
    ensures Ends(a, p, true) == {} && Ends(a, p, false) == {}
  {
    assert forall id :: id in a.descriptions ==>
              a.descriptions[id].description != PipeReader(p) && a.descriptions[id].description != PipeWriter(p);
  }

  lemma PipedWithin(a: Arena, capacity: nat)
    requires Within(a) && 0 < capacity <= PIPE_CAPACITY && |a.descriptions| + 1 < MAX_DESCRIPTIONS
    requires |a.pipes| < MAX_PIPES
    ensures Within(Piped(a, capacity))
  {
    hide Within, Added;
    NewPipeWithin(a, capacity);
    BothWithin(Unended(a, capacity), a.nextPipe);
  }

  lemma FreshId(a: Arena)
    requires Within(a)
    ensures a.nextId !in a.descriptions && a.nextPipe !in a.pipes
  {
  }

  lemma BothWithin(a: Arena, p: PipeId)
    requires Within(a) && |a.descriptions| + 1 < MAX_DESCRIPTIONS
    ensures Within(Added(Added(a, a.nextId, PipeReader(p)), a.nextId + 1, PipeWriter(p)))
  {
    hide Added, Within;
    FreshId(a);
    AddedWithin(a, a.nextId, PipeReader(p));
    AddedOne(a, a.nextId, PipeReader(p));
    AddedWithin(Added(a, a.nextId, PipeReader(p)), a.nextId + 1, PipeWriter(p));
  }

  lemma NewPipeWithin(a: Arena, capacity: nat)
    requires Within(a) && 0 < capacity <= PIPE_CAPACITY && |a.pipes| < MAX_PIPES
    ensures Within(a.(nextPipe := a.nextPipe + 1, pipes := a.pipes[a.nextPipe := Pipe([], capacity, 1, 1)])) &&
            a.nextId !in a.descriptions
  {
    hide PipeWithin;
    MapAdded(a.pipes, a.nextPipe, Pipe([], capacity, 1, 1));
    FreshPipeWithin(capacity);
  }

  lemma FreshPipeWithin(capacity: nat)
    requires 0 < capacity <= PIPE_CAPACITY
    ensures PipeWithin(Pipe([], capacity, 1, 1))
  {
  }

  lemma OpenPipeSound(a: Arena, capacity: nat)
    requires ArenaSound(a)
    ensures ArenaSound(OpenPipe(a, capacity).0)
  {
    hide OpenPipe, Within, Connected, Piped, LocksAgree;
    FreshId(a);
    OpenPipeExactly(a, capacity);
    var (b, r) := OpenPipe(a, capacity);
    if r.Success? {
      PipedWithin(a, capacity);
      forall p | p in b.pipes
        ensures Connected(b, p)
      {
        PipedConnected(a, capacity, p);
      }
      PipedRest(a, capacity);
    } else {
      RenumberedSound(a, b);
    }
  }

  lemma PipedRest(a: Arena, capacity: nat)
    requires ArenaSound(a)
    ensures var b := Piped(a, capacity);
            && LocksAgree(b)
            && forall id :: id in b.descriptions && IsEnd(b.descriptions[id].description) ==>
                 b.descriptions[id].description.pipe in b.pipes
  {
    hide LocksAgree, Connected;
    var a1 := Unended(a, capacity);
    SameLocks(a, a1);
    AddedLocks(a1, a.nextId, PipeReader(a.nextPipe));
    AddedLocks(Added(a1, a.nextId, PipeReader(a.nextPipe)), a.nextId + 1, PipeWriter(a.nextPipe));
  }

  lemma SameLocks(a: Arena, b: Arena)
    requires LocksAgree(a) && a.descriptions == b.descriptions
    ensures LocksAgree(b)
  {
  }

  lemma RenumberedSound(a: Arena, b: Arena)
    requires ArenaSound(a) && b == a.(nextId := b.nextId, nextPipe := b.nextPipe) && b.nextId >= a.nextId &&
             b.nextPipe >= a.nextPipe
    ensures ArenaSound(b)
  {
    hide Ends, LocksAgree;
    SameLocks(a, b);
    forall p | p in b.pipes
      ensures Connected(b, p)
    {
      assert Connected(a, p);
      SamePipeEnds(a, b, p);
    }
  }

  // ----- Locks -----

  lemma LockSound(a: Arena, id: Id, inode: nat, mode: Option<Mode>)
    requires ArenaSound(a)
    ensures ArenaSound(SetLock(a, id, inode, mode).0)
  {
    hide PipesConnected, Within, LocksAgree, ArenaSound, Agree;
    if id in a.descriptions && a.descriptions[id].lock != Wanted(inode, mode) {
      UnlockSound(a, id);
      var a1 := Unlocked(a, id);
      if mode.Some? &&
         !exists other | other in a1.descriptions :: Conflict(a1.descriptions[other].lock, inode, mode.value) {
        GrantSound(a1, id, Lock(inode, mode.value));
      }
    }
  }

  lemma RelockedSound(a: Arena, id: Id, lock: Option<Lock>)
    requires ArenaSound(a) && id in a.descriptions
    ensures PipesConnected(Locked(a, id, lock)) && Within(Locked(a, id, lock))
  {
    hide LocksAgree, Ends;
    var b := Locked(a, id, lock);
    assert b.descriptions.Keys == a.descriptions.Keys;
    assert |b.descriptions| == |b.descriptions.Keys| && |a.descriptions| == |a.descriptions.Keys|;
    forall p | p in b.pipes
      ensures Connected(b, p)
    {
      assert Connected(a, p);
      RelockedEnds(a, id, lock, p, true);
      RelockedEnds(a, id, lock, p, false);
    }
  }

  lemma RelockedEnds(a: Arena, id: Id, lock: Option<Lock>, p: PipeId, reader: bool)
    requires id in a.descriptions
    ensures Ends(Locked(a, id, lock), p, reader) == Ends(a, p, reader)
  {
  }

  lemma UnlockSound(a: Arena, id: Id)
    requires ArenaSound(a) && id in a.descriptions
    ensures ArenaSound(Unlocked(a, id))
  {
    hide PipesConnected, Within, Agree;
    RelockedSound(a, id, None);
    UnlockedParts(a, id);
    var b := Unlocked(a, id);
    NoneAgrees();
    forall x, y | x in b.descriptions && y in b.descriptions && x != y
      ensures Agree(b.descriptions[x].lock, b.descriptions[y].lock)
    {
    }
  }

  lemma NoneAgrees()
    ensures forall x :: Agree(None, x) && Agree(x, None)
  {
  }

  lemma UnlockedParts(a: Arena, id: Id)
    requires id in a.descriptions && PipesConnected(Locked(a, id, None)) && Within(Locked(a, id, None))
    ensures PipesConnected(Unlocked(a, id)) && Within(Unlocked(a, id))
    ensures Unlocked(a, id).descriptions == Locked(a, id, None).descriptions
  {
    hide Connected, PipeWithin;
    var b, c := Locked(a, id, None), Unlocked(a, id);
    if a.descriptions[id].lock.None? {
      assert a.descriptions[id := a.descriptions[id].(lock := None)] == a.descriptions;
    } else {
      forall p | p in c.pipes
        ensures Connected(c, p)
      {
        assert Connected(b, p);
        ConnectedSame(b, c, p);
      }
    }
  }

  lemma ConnectedSame(a: Arena, b: Arena, p: PipeId)
    requires a.descriptions == b.descriptions && a.pipes == b.pipes && p in a.pipes && Connected(a, p)
    ensures Connected(b, p)
  {
    SamePipeEnds(a, b, p);
  }

  lemma GrantSound(a: Arena, id: Id, lock: Lock)
    requires ArenaSound(a) && id in a.descriptions
    requires forall other :: other in a.descriptions ==> !Conflict(a.descriptions[other].lock, lock.inode, lock.mode)
    ensures ArenaSound(Locked(a, id, Some(lock)))
  {
    hide PipesConnected, Within;
    RelockedSound(a, id, Some(lock));
    var b := Locked(a, id, Some(lock));
    forall x, y | x in b.descriptions && y in b.descriptions && x != y
      ensures Agree(b.descriptions[x].lock, b.descriptions[y].lock)
    {
      assert Agree(a.descriptions[x].lock, a.descriptions[y].lock);
    }
  }

  // ----- Worlds -----

  /** A change to the arena that keeps every description and its count. */
  lemma ArenaStep(w: World, a: Arena)
    requires Sound(w) && ArenaSound(a)
    requires forall id :: id in w.arena.descriptions ==>
              id in a.descriptions && a.descriptions[id].references == w.arena.descriptions[id].references
    requires forall id :: id in a.descriptions && id !in w.arena.descriptions ==> a.descriptions[id].references == 0
    ensures Sound(w.(arena := a))
  {
    hide ArenaSound, TablesSound, Owners;
    var v := w.(arena := a);
    forall id | id in a.descriptions
      ensures CountedAt(v, id)
    {
      if id in w.arena.descriptions {
        assert CountedAt(w, id);
      } else {
        Unowned(w, id);
      }
    }
    SameTables(w, v);
  }

  lemma SameTables(w: World, v: World)
    requires TablesSound(w) && v.tables == w.tables
    ensures TablesSound(v)
  {
  }

  lemma Unowned(w: World, id: Id)
    requires NoneDangles(w) && id !in w.arena.descriptions
    ensures Owners(w.tables, id) == {} && w.handles[id] == 0
  {
  }

  /** The machine takes a reference. */
  function Held(w: World, id: Id): World
    requires id in w.arena.descriptions
  {
    w.(arena := WithReferences(w.arena, id, w.arena.descriptions[id].references + 1),
       handles := w.handles + multiset{id})
  }

  lemma HeldSound(w: World, id: Id)
    requires Sound(w) && id in w.arena.descriptions
    ensures Sound(Held(w, id))
  {
    hide ArenaSound, TablesSound, Owners;
    var v := Held(w, id);
    ReferencesSound(w.arena, id, w.arena.descriptions[id].references + 1);
    forall other | other in v.arena.descriptions
      ensures CountedAt(v, other)
    {
      assert CountedAt(w, other);
    }
    SameTables(w, v);
  }

  /** The machine gives back a reference it holds. */
  function Given(w: World, id: Id): World {
    w.(arena := Release(w.arena, id).0, handles := w.handles - multiset{id})
  }

  lemma GivenSound(w: World, id: Id)
    requires Sound(w) && id in w.handles
    ensures Sound(Given(w, id)) && Release(w.arena, id).1.Success?
  {
    hide ArenaSound, TablesSound, Owners, Drop;
    var v := Given(w, id);
    assert CountedAt(w, id);
    SameTables(w, v);
    if w.arena.descriptions[id].references > 1 {
      ReferencesSound(w.arena, id, w.arena.descriptions[id].references - 1);
    } else {
      DropSound(w.arena, id);
      Dropped(w.arena, id);
      NotOwned(w, id);
    }
    forall other | other in v.arena.descriptions
      ensures CountedAt(v, other)
    {
      assert CountedAt(w, other);
    }
  }

  lemma NotOwned(w: World, id: Id)
    requires |Owners(w.tables, id)| == 0
    ensures forall pid, fd :: pid in w.tables && fd in w.tables[pid].entries ==> w.tables[pid].entries[fd] != id
  {
    forall pid, fd | pid in w.tables && fd in w.tables[pid].entries
      ensures w.tables[pid].entries[fd] != id
    {
      assert (pid, fd) in Owners(w.tables, id) <==> w.tables[pid].entries[fd] == id;
    }
  }

  // ----- References move between handles and table entries -----

  /** A reference the machine holds becomes a new table entry. */
  function Put(w: World, pid: Pid, fd: Fd, id: Id): World {
    w.(tables := w.tables[pid := TableOf(w, pid).(entries := TableOf(w, pid).entries[fd := id])],
       handles := w.handles - multiset{id})
  }

  lemma OwnersOfPut(w: World, pid: Pid, fd: Fd, id: Id, other: Id)
    requires fd !in TableOf(w, pid).entries
    ensures Owners(Put(w, pid, fd, id).tables, other) == if other ==
            id then Owners(w.tables, other) + {(pid, fd)} else Owners(w.tables, other)
    ensures (pid, fd) !in Owners(w.tables, other)
  {
  }

  lemma PutSound(w: World, pid: Pid, fd: Fd, id: Id)
    requires Sound(w) && id in w.handles && fd >= 0 && fd !in TableOf(w, pid).entries
    requires |TableOf(w, pid).entries| < MAX_FDS
    ensures Sound(Put(w, pid, fd, id))
  {
    hide ArenaSound, Owners, TableSound;
    var v := Put(w, pid, fd, id);
    forall other | other in v.arena.descriptions
      ensures CountedAt(v, other)
    {
      assert CountedAt(w, other);
      OwnersOfPut(w, pid, fd, id, other);
    }
    PutTable(TableOf(w, pid), fd, id);
  }

  lemma PutTable(t: Table, fd: Fd, id: Id)
    requires t == EmptyTable || TableSound(t)
    requires fd >= 0 && fd !in t.entries && |t.entries| < MAX_FDS
    ensures TableSound(t.(entries := t.entries[fd := id]))
  {
    MapAdded(t.entries, fd, id);
  }

  /** A table entry becomes a reference the machine holds. */
  function Taken(w: World, pid: Pid, fd: Fd): World
    requires pid in w.tables && fd in w.tables[pid].entries
  {
    var t := w.tables[pid];
    w.(tables := w.tables[pid := Table(t.entries - {fd}, t.closeOnExec - {fd})],
       handles := w.handles + multiset{t.entries[fd]})
  }

  lemma OwnersOfTaken(w: World, pid: Pid, fd: Fd, other: Id)
    requires pid in w.tables && fd in w.tables[pid].entries
    ensures Owners(Taken(w, pid, fd).tables, other) == Owners(w.tables, other) - {(pid, fd)}
    ensures (pid, fd) in Owners(w.tables, other) <==> w.tables[pid].entries[fd] == other
  {
  }

  lemma TakenSound(w: World, pid: Pid, fd: Fd)
    requires Sound(w) && pid in w.tables && fd in w.tables[pid].entries
    ensures Sound(Taken(w, pid, fd))
  {
    hide ArenaSound, Owners, TableSound;
    var v := Taken(w, pid, fd);
    forall other | other in v.arena.descriptions
      ensures CountedAt(v, other)
    {
      assert CountedAt(w, other);
      OwnersOfTaken(w, pid, fd, other);
    }
    TakenTable(w.tables[pid], fd);
  }

  lemma TakenTable(t: Table, fd: Fd)
    requires TableSound(t) && fd in t.entries
    ensures TableSound(Table(t.entries - {fd}, t.closeOnExec - {fd}))
  {
    MapAdded(t.entries - {fd}, fd, t.entries[fd]);
    assert (t.entries - {fd})[fd := t.entries[fd]] == t.entries;
  }

  // ----- Installing and closing -----

  /** Tables that name the same descriptions from the same places. */
  lemma SameOwnersSound(w: World, tables: map<Pid, Table>)
    requires Sound(w) && (forall id :: Owners(tables, id) == Owners(w.tables, id))
    requires forall pid :: pid in tables ==> TableSound(tables[pid])
    ensures Sound(w.(tables := tables))
  {
    hide ArenaSound, TableSound, Owners;
    var v := w.(tables := tables);
    forall id | id in w.arena.descriptions
      ensures CountedAt(v, id)
    {
      assert CountedAt(w, id);
    }
    forall pid, fd | pid in tables && fd in tables[pid].entries
      ensures tables[pid].entries[fd] in w.arena.descriptions
    {
      OwnerLives(w, tables, pid, fd);
    }
  }

  lemma OwnerLives(w: World, tables: map<Pid, Table>, pid: Pid, fd: Fd)
    requires NoneDangles(w) && pid in tables && fd in tables[pid].entries
    requires Owners(tables, tables[pid].entries[fd]) == Owners(w.tables, tables[pid].entries[fd])
    ensures tables[pid].entries[fd] in w.arena.descriptions
  {
    assert (pid, fd) in Owners(tables, tables[pid].entries[fd]);
  }

  /** Giving a process an empty table, or none instead of an empty one, changes nothing. */
  lemma EmptyTableSound(w: World, pid: Pid)
    requires Sound(w) && TableOf(w, pid).entries == map[]
    ensures Sound(w.(tables := w.tables[pid := EmptyTable])) && Sound(w.(tables := w.tables - {pid}))
  {
    hide ArenaSound, Counted, NoneDangles;
    forall id
      ensures Owners(w.tables[pid := EmptyTable], id) == Owners(w.tables, id) == Owners(w.tables - {pid}, id)
    {
      EmptyOwners(w, pid, id);
    }
    SameOwnersSound(w, w.tables[pid := EmptyTable]);
    SameOwnersSound(w, w.tables - {pid});
  }

  lemma EmptyOwners(w: World, pid: Pid, id: Id)
    requires TableOf(w, pid).entries == map[]
    ensures Owners(w.tables[pid := EmptyTable], id) == Owners(w.tables, id) == Owners(w.tables - {pid}, id)
  {
  }

  /** Replacing only the close-on-exec flags of a table. */
  lemma FlagsSound(w: World, pid: Pid, flags: set<Fd>)
    requires Sound(w) && pid in w.tables && flags <= w.tables[pid].entries.Keys
    ensures Sound(w.(tables := w.tables[pid := w.tables[pid].(closeOnExec := flags)]))
  {
    hide ArenaSound;
    var v := w.(tables := w.tables[pid := w.tables[pid].(closeOnExec := flags)]);
    forall id | id in w.arena.descriptions
      ensures CountedAt(v, id)
    {
      assert CountedAt(w, id);
      assert Owners(v.tables, id) == Owners(w.tables, id);
    }
  }

  lemma InstallSound(w: World, pid: Pid, fd: Fd, id: Id)
    requires Sound(w)
    ensures Sound(Step(w, Installs(pid, fd, id)))
  {
    hide Sound, Release, Owners;
    var t := TableOf(w, pid);
    var r := Install(w.arena, t, fd, id);
    if fd < 0 || (fd !in t.entries && |t.entries| >= MAX_FDS) || Retain(w.arena, id).1.Failure? {
      SameTable(w, pid);
    } else {
      HeldSound(w, id);
      if fd in t.entries {
        ReplaceSound(Held(w, id), pid, fd, id);
        assert Held(w, id).handles - multiset{id} == w.handles;
      } else {
        NewEntrySound(Held(w, id), pid, fd, id);
        assert Held(w, id).handles - multiset{id} == w.handles;
      }
    }
  }

  lemma SameTable(w: World, pid: Pid)
    requires Sound(w)
    ensures Sound(WithTable(w, pid, w.arena, TableOf(w, pid)))
  {
    hide Sound;
    if pid in w.tables {
      assert w.tables[pid := w.tables[pid]] == w.tables;
    } else {
      EmptyTableSound(w, pid);
    }
  }

  lemma Unflagged(w: World, pid: Pid)
    requires Sound(w)
    ensures TableOf(w, pid).closeOnExec <= TableOf(w, pid).entries.Keys
  {
    hide Counted, NoneDangles, ArenaSound;
  }

  lemma NewEntrySound(w: World, pid: Pid, fd: Fd, id: Id)
    requires Sound(w) && id in w.handles && fd >= 0 && fd !in TableOf(w, pid).entries
    requires |TableOf(w, pid).entries| < MAX_FDS
    ensures var t := TableOf(w, pid);
            Sound(w.(tables := w.tables[pid := Table(t.entries[fd := id], t.closeOnExec - {fd})],
                     handles := w.handles - multiset{id}))
  {
    hide Sound;
    Unflagged(w, pid);
    PutSound(w, pid, fd, id);
    assert TableOf(w, pid).closeOnExec - {fd} == TableOf(w, pid).closeOnExec;
  }

  lemma ReplaceSound(w: World, pid: Pid, fd: Fd, id: Id)
    requires Sound(w) && id in w.handles && fd >= 0 && pid in w.tables && fd in w.tables[pid].entries
    ensures var t := w.tables[pid];
            && Release(w.arena, t.entries[fd]).1.Success?
            && Sound(World(Release(w.arena, t.entries[fd]).0,
                           w.tables[pid := Table(t.entries[fd := id], t.closeOnExec - {fd})], w.handles - multiset{id}))
  {
    hide Sound, Release;
    var t := w.tables[pid];
    var w1 := Taken(w, pid, fd);
    TakenSound(w, pid, fd);
    FewerEntries(w, pid, fd);
    PutSound(w1, pid, fd, id);
    var w2 := Put(w1, pid, fd, id);
    assert (t.entries - {fd})[fd := id] == t.entries[fd := id];
    GivenSound(w2, t.entries[fd]);
    assert w2.tables == w.tables[pid := Table(t.entries[fd := id], t.closeOnExec - {fd})];
    assert Given(w2, t.entries[fd]).handles == w.handles - multiset{id};
  }

  lemma FewerEntries(w: World, pid: Pid, fd: Fd)
    requires Sound(w) && pid in w.tables && fd in w.tables[pid].entries
    ensures |w.tables[pid].entries - {fd}| < MAX_FDS
  {
    hide Counted, NoneDangles, ArenaSound;
    var e := w.tables[pid].entries;
    MapAdded(e - {fd}, fd, e[fd]);
    assert (e - {fd})[fd := e[fd]] == e;
  }

  lemma CloseSound(w: World, pid: Pid, fd: Fd)
    requires Sound(w)
    ensures Sound(Step(w, Closes(pid, fd)))
  {
    hide Sound, Release;
    if pid in w.tables && fd in w.tables[pid].entries {
      TakenSound(w, pid, fd);
      GivenSound(Taken(w, pid, fd), w.tables[pid].entries[fd]);
      assert Given(Taken(w, pid, fd), w.tables[pid].entries[fd]).handles == w.handles;
    } else {
      SameTable(w, pid);
    }
  }

  // ----- Many at once -----

  lemma {:induction false} GivenAllSound(w: World, ids: seq<Id>)
    requires Sound(w) && multiset(ids) <= w.handles
    ensures Sound(w.(arena := ReleaseAll(w.arena, ids), handles := w.handles - multiset(ids)))
    decreases |ids|
  {
    hide Sound, Release;
    if ids == [] {
      assert w.handles - multiset(ids) == w.handles;
    } else {
      assert ids == [ids[0]] + ids[1..];
      assert multiset(ids) == multiset{ids[0]} + multiset(ids[1..]);
      assert ids[0] in multiset(ids);
      GivenSound(w, ids[0]);
      GivenAllSound(Given(w, ids[0]), ids[1..]);
      assert Given(w, ids[0]).handles - multiset(ids[1..]) == w.handles - multiset(ids);
    }
  }

  /** The entries `which` of a table turned into references the machine holds. */
  function TakenAll(w: World, pid: Pid, which: map<Fd, Id>): World
    requires pid in w.tables
  {
    var t := w.tables[pid];
    w.(tables := w.tables[pid := Table(t.entries - which.Keys, t.closeOnExec - which.Keys)],
       handles := w.handles + multiset(Named(which)))
  }

  predicate PartOf(which: map<Fd, Id>, entries: map<Fd, Id>) {
    forall fd :: fd in which ==> fd in entries && entries[fd] == which[fd]
  }

  lemma NamedFirst(which: map<Fd, Id>)
    requires which != map[]
    ensures var fd := Least(which); multiset(Named(which)) == multiset{which[fd]} + multiset(Named(which - {fd}))
    ensures |which - {Least(which)}| < |which|
  {
    var fd := Least(which);
    assert Named(which) == [which[fd]] + Named(which - {fd});
    MapAdded(which - {fd}, fd, which[fd]);
    assert (which - {fd})[fd := which[fd]] == which;
  }

  lemma {:induction false} TakenAllSound(w: World, pid: Pid, which: map<Fd, Id>)
    requires Sound(w) && pid in w.tables && PartOf(which, w.tables[pid].entries)
    ensures Sound(TakenAll(w, pid, which))
    decreases |which|
  {
    hide Sound, TakenAll, Taken;
    if which == map[] {
      TakenNone(w, pid);
    } else {
      var fd := Least(which);
      NamedFirst(which);
      TakenSound(w, pid, fd);
      TakenFirst(w, pid, which);
      TakenAllSound(Taken(w, pid, fd), pid, which - {fd});
    }
  }

  lemma TakenNone(w: World, pid: Pid)
    requires pid in w.tables
    ensures TakenAll(w, pid, map[]) == w
  {
    var t := w.tables[pid];
    assert Table(t.entries - {}, t.closeOnExec - {}) == t;
    assert w.tables[pid := t] == w.tables;
  }

  lemma TakenFirst(w: World, pid: Pid, which: map<Fd, Id>)
    requires pid in w.tables && PartOf(which, w.tables[pid].entries) && which != map[]
    ensures var fd := Least(which);
            && pid in Taken(w, pid, fd).tables && PartOf(which - {fd}, Taken(w, pid, fd).tables[pid].entries)
            && TakenAll(Taken(w, pid, fd), pid, which - {fd}) == TakenAll(w, pid, which)
  {
    hide Named;
    var t, fd := w.tables[pid], Least(which);
    NamedFirst(which);
    assert which.Keys == {fd} + (which - {fd}).Keys;
    assert (t.entries - {fd}) - (which - {fd}).Keys == t.entries - which.Keys;
    assert (t.closeOnExec - {fd}) - (which - {fd}).Keys == t.closeOnExec - which.Keys;
  }

  lemma NamedNone()
    ensures Named(map[]) == []
  {
  }

  /** Closing any part of a table. */
  lemma CloseSomeSound(w: World, pid: Pid, which: map<Fd, Id>)
    requires Sound(w) && pid in w.tables && PartOf(which, w.tables[pid].entries)
    ensures var t := w.tables[pid];
            Sound(World(ReleaseAll(w.arena, Named(which)),
                        w.tables[pid := Table(t.entries - which.Keys, t.closeOnExec - which.Keys)], w.handles))
  {
    hide Sound, Named, ReleaseAll;
    TakenAllSound(w, pid, which);
    var v := TakenAll(w, pid, which);
    GivenAllSound(v, Named(which));
    assert v.handles - multiset(Named(which)) == w.handles;
  }

  lemma ExecSound(w: World, pid: Pid)
    requires Sound(w)
    ensures Sound(Step(w, Execs(pid)))
  {
    hide Sound, Named, ReleaseAll;
    var t := TableOf(w, pid);
    Unflagged(w, pid);
    var which := Flagged(t);
    assert which.Keys == t.closeOnExec;
    assert t.entries - which.Keys == t.entries - t.closeOnExec;
    if pid in w.tables {
      CloseSomeSound(w, pid, which);
      assert t.closeOnExec - which.Keys == {};
    } else {
      EmptyTableSound(w, pid);
      NothingClosed(w.arena, t);
    }
  }

  lemma NothingClosed(a: Arena, t: Table)
    requires t == EmptyTable
    ensures CloseForExec(a, t) == (a, EmptyTable) && CloseAll(a, t) == (a, EmptyTable)
  {
    assert Flagged(t) == map[];
    assert t.entries - t.closeOnExec == map[];
  }

  lemma ExitSound(w: World, pid: Pid)
    requires Sound(w)
    ensures Sound(Step(w, Exits(pid)))
  {
    hide Sound, Named, ReleaseAll, Step;
    var t := TableOf(w, pid);
    ExitStep(w, pid);
    if pid in w.tables {
      CloseSomeSound(w, pid, t.entries);
      var v := World(ReleaseAll(w.arena, Named(t.entries)),
                     w.tables[pid := Table(t.entries - t.entries.Keys, t.closeOnExec - t.entries.Keys)], w.handles);
      assert t.entries - t.entries.Keys == map[];
      EmptyTableSound(v, pid);
      assert v.tables - {pid} == w.tables - {pid};
    } else {
      NothingClosed(w.arena, t);
      assert w.tables - {pid} == w.tables;
    }
  }

  lemma ExitStep(w: World, pid: Pid)
    ensures Step(w, Exits(pid)) == World(CloseAll(w.arena, TableOf(w, pid)).0, w.tables - {pid}, w.handles)
  {
  }
}
