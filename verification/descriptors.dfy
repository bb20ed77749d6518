// Open descriptions shared by process descriptor tables, and the bounded pipes between them, as
// values: the arena of descriptions and pipes, one table per process, and every operation on them.

module Descriptors {
  import opened Basics

  const MAX_FDS: nat := 256
  const MAX_DESCRIPTIONS: nat := 4096
  const MAX_PIPES: nat := 1024
  const PIPE_CAPACITY: nat := 65536
  const MAX_CAPTURE: nat := 4194304
  const DEVICE_QUANTUM: nat := 4096
  const U32_MAX: nat := 0xFFFF_FFFF

  type Fd = int
  type Id = nat
  type PipeId = nat

  datatype Error =
    | InvalidFd | WrongAccess | DescriptorLimit | DescriptionLimit | PipeLimit | InvalidPipeCapacity
    | BrokenPipe | OutputLimit | ReferenceOverflow

  datatype Outcome<T> = Success(value: T) | Failure(error: Error)

  /** The condition a blocked operation waits for. */
  datatype Wait = InputReadable(id: Id) | PipeReadable(pipe: PipeId) | PipeWritable(pipe: PipeId)

  datatype Poll<T> = Ready(value: T) | Blocked(wait: Wait)

  datatype Readiness = Readiness(bytes: nat, hangup: bool)

  datatype Mode = Shared | Exclusive

  datatype Lock = Lock(inode: nat, mode: Mode)

  datatype Description =
    | Directory(path: string)
    | Input(bytes: seq<Byte>, cursor: nat, closed: bool)
    | Capture(bytes: seq<Byte>, delivered: nat)
    | Null(readable: bool, writable: bool)
    | Zero(readable: bool, writable: bool)
    | File(path: string, cursor: nat, readable: bool, writable: bool, append: bool)
    | PipeReader(pipe: PipeId)
    | PipeWriter(pipe: PipeId)

  datatype Entry = Entry(description: Description, references: nat, nonblocking: bool, lock: Option<Lock>)

  datatype Pipe = Pipe(bytes: seq<Byte>, capacity: nat, readers: nat, writers: nat)

  /** The machine's descriptions and pipes. */
  datatype Arena = Arena(
    nextId: nat, nextPipe: nat, descriptions: map<Id, Entry>, pipes: map<PipeId, Pipe>,
    locksChanged: bool, generation: nat)

  /** One process's descriptors: numbers to descriptions, and the numbers that close on exec. */
  datatype Table = Table(entries: map<Fd, Id>, closeOnExec: set<Fd>)

  const EmptyArena: Arena := Arena(1, 1, map[], map[], false, 0)
  const EmptyTable: Table := Table(map[], {})

  // ----- Descriptions -----

  function Allocate(a: Arena, description: Description): (Arena, Outcome<Id>) {
    if |a.descriptions| >= MAX_DESCRIPTIONS || a.nextId >= U32_MAX then (a, Failure(DescriptionLimit))
    else
      (a.(nextId := a.nextId + 1, descriptions := a.descriptions[a.nextId := Entry(description, 0, false, None)]),
       Success(a.nextId))
  }

  /** A pipe and its two endpoint descriptions, undone when the second or third part is refused;
      the identities used up stay used up. */
  function OpenPipe(a: Arena, capacity: nat): (Arena, Outcome<(Id, Id)>) {
    if capacity == 0 || capacity > PIPE_CAPACITY then (a, Failure(InvalidPipeCapacity))
    else if |a.pipes| >= MAX_PIPES || a.nextPipe >= U32_MAX then (a, Failure(PipeLimit))
    else
      var p := a.nextPipe;
      var a1 := a.(nextPipe := p + 1, pipes := a.pipes[p := Pipe([], capacity, 1, 1)]);
      match Allocate(a1, PipeReader(p))
      case (a2, Failure(e)) => (a2.(pipes := a2.pipes - {p}), Failure(e))
      case (a2, Success(reader)) =>
        match Allocate(a2, PipeWriter(p))
        case (a3, Failure(e)) => (a3.(descriptions := a3.descriptions - {reader}, pipes := a3.pipes - {p}), Failure(e))
        case (a3, Success(writer)) => (a3, Success((reader, writer)))
  }

  function Retain(a: Arena, id: Id): (Arena, Outcome<()>) {
    if id !in a.descriptions then (a, Failure(InvalidFd))
    else if a.descriptions[id].references >= U32_MAX then (a, Failure(ReferenceOverflow))
    else (WithReferences(a, id, a.descriptions[id].references + 1), Success(()))
  }

  function WithReferences(a: Arena, id: Id, references: nat): Arena
    requires id in a.descriptions
  {
    a.(descriptions := a.descriptions[id := a.descriptions[id].(references := references)])
  }

  /** Give back one reference; the last one removes the description, its lock and its pipe end. */
  function Release(a: Arena, id: Id): (Arena, Outcome<()>) {
    if id !in a.descriptions || a.descriptions[id].references == 0 then (a, Failure(InvalidFd))
    else if a.descriptions[id].references > 1 then
      (WithReferences(a, id, a.descriptions[id].references - 1), Success(()))
    else (Drop(a, id), Success(()))
  }

  function Drop(a: Arena, id: Id): Arena
    requires id in a.descriptions
  {
    var entry := a.descriptions[id];
    var a1 := a.(descriptions := a.descriptions - {id});
    var a2 := if entry.lock.Some? then LockReleased(a1) else a1;
    match entry.description
    case PipeReader(p) => a2.(pipes := Disconnect(a2.pipes, p, true))
    case PipeWriter(p) => a2.(pipes := Disconnect(a2.pipes, p, false))
    case _ => a2
  }

  function LockReleased(a: Arena): Arena {
    a.(locksChanged := true, generation := (a.generation + 1) % TWO64)
  }

  function Minus1(n: nat): nat {
    if n == 0 then 0 else n - 1
  }

  /** Remove one end of a pipe, and the pipe with its last end. */
  function Disconnect(pipes: map<PipeId, Pipe>, p: PipeId, reader: bool): map<PipeId, Pipe> {
    if p !in pipes then pipes
    else
      var pipe := if reader then pipes[p].(readers := Minus1(pipes[p].readers))
                  else pipes[p].(writers := Minus1(pipes[p].writers));
      if pipe.readers == 0 && pipe.writers == 0 then pipes - {p} else pipes[p := pipe]
  }

  /** Remove a description no table has taken. */
  function Discard(a: Arena, id: Id): (Arena, Outcome<()>) {
    if id !in a.descriptions then (a, Failure(InvalidFd))
    else if a.descriptions[id].references != 0 then (a, Failure(WrongAccess))
    else
      match Retain(a, id)
      case (a1, Failure(e)) => (a1, Failure(e))
      case (a1, Success(_)) => Release(a1, id)
  }

  // ----- Locks -----

  predicate Conflict(held: Option<Lock>, inode: nat, mode: Mode) {
    held.Some? && held.value.inode == inode && (mode == Exclusive || held.value.mode == Exclusive)
  }

  function Locked(a: Arena, id: Id, lock: Option<Lock>): Arena
    requires id in a.descriptions
  {
    a.(descriptions := a.descriptions[id := a.descriptions[id].(lock := lock)])
  }

  function Unlocked(a: Arena, id: Id): Arena
    requires id in a.descriptions
  {
    if a.descriptions[id].lock.None? then a else LockReleased(Locked(a, id, None))
  }

  /** Change the lock of a description: the lock it holds goes first, even if the new one is then
      refused. */
  function SetLock(a: Arena, id: Id, inode: nat, mode: Option<Mode>): (Arena, Outcome<bool>) {
    if id !in a.descriptions then (a, Failure(InvalidFd))
    else if a.descriptions[id].lock == Wanted(inode, mode) then (a, Success(true))
    else
      var a1 := Unlocked(a, id);
      if mode.None? then (a1, Success(true))
      else if exists other | other in a1.descriptions :: Conflict(a1.descriptions[other].lock, inode, mode.value) then
        (a1, Success(false))
      else (Locked(a1, id, Some(Lock(inode, mode.value))), Success(true))
  }

  function Wanted(inode: nat, mode: Option<Mode>): Option<Lock> {
    match mode case None => None case Some(m) => Some(Lock(inode, m))
  }

  // ----- Input and output -----

  predicate InputIsReadable(a: Arena, id: Id) {
    && id in a.descriptions
    && var d := a.descriptions[id].description;
    && d.Input? && (d.cursor < |d.bytes| || d.closed)
  }

  predicate PipeIsReadable(a: Arena, p: PipeId) {
    p in a.pipes && (a.pipes[p].bytes != [] || a.pipes[p].writers == 0)
  }

  predicate PipeIsWritable(a: Arena, p: PipeId) {
    p in a.pipes && (a.pipes[p].readers == 0 || |a.pipes[p].bytes| < a.pipes[p].capacity)
  }

  function Min(x: nat, y: nat): nat {
    if x <= y then x else y
  }

  function Sub(x: nat, y: nat): nat {
    if x <= y then 0 else x - y
  }

  function WithDescription(a: Arena, id: Id, d: Description): Arena
    requires id in a.descriptions
  {
    a.(descriptions := a.descriptions[id := a.descriptions[id].(description := d)])
  }

  function WithBytes(a: Arena, p: PipeId, bytes: seq<Byte>): Arena
    requires p in a.pipes
  {
    a.(pipes := a.pipes[p := a.pipes[p].(bytes := bytes)])
  }

  function Read(a: Arena, id: Id, maximum: nat): (Arena, Outcome<Poll<seq<Byte>>>) {
    if id !in a.descriptions then (a, Failure(InvalidFd))
    else
      match a.descriptions[id].description
      case Input(bytes, cursor, closed) =>
        if cursor >= |bytes| then (a, Success(if closed then Ready([]) else Blocked(InputReadable(id))))
        else
          var end := Min(cursor + maximum, |bytes|);
          (WithDescription(a, id, Input(bytes, end, closed)), Success(Ready(bytes[cursor..end])))
      case Null(true, _) => (a, Success(Ready([])))
      case Zero(true, _) => (a, Success(Ready(seq(maximum, _ => 0))))
      case PipeReader(p) =>
        if p !in a.pipes then (a, Failure(InvalidFd))
        else if a.pipes[p].bytes == [] && a.pipes[p].writers > 0 then (a, Success(Blocked(PipeReadable(p))))
        else
          var count := Min(maximum, |a.pipes[p].bytes|);
          (WithBytes(a, p, a.pipes[p].bytes[count..]), Success(Ready(a.pipes[p].bytes[..count])))
      case _ => (a, Failure(WrongAccess))
  }

  function Write(a: Arena, id: Id, bytes: seq<Byte>): (Arena, Outcome<Poll<nat>>) {
    if id !in a.descriptions then (a, Failure(InvalidFd))
    else
      match a.descriptions[id].description
      case Capture(output, delivered) =>
        if |output| + |bytes| > MAX_CAPTURE then (a, Failure(OutputLimit))
        else (WithDescription(a, id, Capture(output + bytes, delivered)), Success(Ready(|bytes|)))
      case Null(_, true) => (a, Success(Ready(|bytes|)))
      case Zero(_, true) => (a, Success(Ready(|bytes|)))
      case PipeWriter(p) =>
        if p !in a.pipes then (a, Failure(InvalidFd))
        else if a.pipes[p].readers == 0 then (a, Failure(BrokenPipe))
        else
          var available := Sub(a.pipes[p].capacity, |a.pipes[p].bytes|);
          if available == 0 then (a, Success(Blocked(PipeWritable(p))))
          else
            var count := Min(available, |bytes|);
            (WithBytes(a, p, a.pipes[p].bytes + bytes[..count]), Success(Ready(count)))
      case _ => (a, Failure(WrongAccess))
  }

  /** The host adds bytes to an input stream that is still open. */
  function AppendInput(a: Arena, id: Id, input: seq<Byte>): (Arena, Outcome<()>) {
    if id !in a.descriptions then (a, Failure(InvalidFd))
    else
      match a.descriptions[id].description
      case Input(bytes, cursor, closed) =>
        if closed then (a, Failure(WrongAccess))
        else if |bytes| + |input| > MAX_CAPTURE then (a, Failure(OutputLimit))
        else (WithDescription(a, id, Input(bytes + input, cursor, closed)), Success(()))
      case _ => (a, Failure(WrongAccess))
  }

  function CloseInput(a: Arena, id: Id): (Arena, Outcome<()>) {
    if id !in a.descriptions then (a, Failure(InvalidFd))
    else
      match a.descriptions[id].description
      case Input(bytes, cursor, _) => (WithDescription(a, id, Input(bytes, cursor, true)), Success(()))
      case _ => (a, Failure(WrongAccess))
  }

  /** The host takes what a capture holds beyond the bytes it has taken before. */
  function DrainCapture(a: Arena, id: Id): (Arena, Outcome<seq<Byte>>) {
    if id !in a.descriptions then (a, Failure(InvalidFd))
    else
      match a.descriptions[id].description
      case Capture(bytes, delivered) =>
        (WithDescription(a, id, Capture(bytes, |bytes|)), Success(bytes[Min(delivered, |bytes|)..]))
      case _ => (a, Failure(WrongAccess))
  }

  predicate CanRead(d: Description) {
    match d
    case Directory(_) => true
    case Input(_, _, _) => true
    case PipeReader(_) => true
    case Capture(_, _) => false
    case PipeWriter(_) => false
    case Null(readable, _) => readable
    case Zero(readable, _) => readable
    case File(_, _, readable, _, _) => readable
  }

  predicate CanWrite(d: Description) {
    match d
    case Directory(_) => false
    case Input(_, _, _) => false
    case PipeReader(_) => false
    case Capture(_, _) => true
    case PipeWriter(_) => true
    case Null(_, writable) => writable
    case Zero(_, writable) => writable
    case File(_, _, _, writable, _) => writable
  }

  /** How much an operation could move now, without moving anything. */
  function ReadyFor(a: Arena, id: Id, writing: bool): Outcome<Poll<Readiness>> {
    if id !in a.descriptions then Failure(InvalidFd)
    else
      var d := a.descriptions[id].description;
      if (writing && !CanWrite(d)) || (!writing && !CanRead(d)) then Failure(WrongAccess)
      else if d.Input? && !InputIsReadable(a, id) then Success(Blocked(InputReadable(id)))
      else if d.PipeReader? && !PipeIsReadable(a, d.pipe) then Success(Blocked(PipeReadable(d.pipe)))
      else if d.PipeWriter? && !PipeIsWritable(a, d.pipe) then Success(Blocked(PipeWritable(d.pipe)))
      else Success(Ready(ReadyNow(a, d)))
  }

  function ReadyNow(a: Arena, d: Description): Readiness
    requires d.PipeReader? || d.PipeWriter? ==> d.pipe in a.pipes
  {
    match d
    case Input(bytes, cursor, closed) => Readiness(Sub(|bytes|, cursor), closed)
    case PipeReader(p) => Readiness(|a.pipes[p].bytes|, a.pipes[p].writers == 0)
    case PipeWriter(p) =>
      Readiness(if a.pipes[p].readers == 0 then 0 else Sub(a.pipes[p].capacity, |a.pipes[p].bytes|),
                a.pipes[p].readers == 0)
    case Capture(bytes, _) => Readiness(Sub(MAX_CAPTURE, |bytes|), false)
    case Zero(_, _) => Readiness(DEVICE_QUANTUM, false)
    case _ => Readiness(0, false)
  }

  // ----- Descriptor tables -----

  /** The smallest descriptor number of a table. */
  function Least(entries: map<Fd, Id>): (fd: Fd)
    requires entries != map[]
    ensures fd in entries && forall other :: other in entries ==> fd <= other
  {
    LeastKey(entries)
  }

  /** The descriptions a table names, in the order of their numbers. */
  function Named(entries: map<Fd, Id>): (ids: seq<Id>)
    ensures |ids| == |entries|
  {
    if entries == map[] then []
    else
      var fd := Least(entries);
      assert (entries - {fd}).Keys == entries.Keys - {fd};
      [entries[fd]] + Named(entries - {fd})
  }

  function ReleaseAll(a: Arena, ids: seq<Id>): Arena
    decreases |ids|
  {
    if ids == [] then a else ReleaseAll(Release(a, ids[0]).0, ids[1..])
  }

  function Install(a: Arena, t: Table, fd: Fd, id: Id): (Arena, Table, Outcome<()>) {
    if fd < 0 then (a, t, Failure(InvalidFd))
    else if fd !in t.entries && |t.entries| >= MAX_FDS then (a, t, Failure(DescriptorLimit))
    else
      match Retain(a, id)
      case (a1, Failure(e)) => (a1, t, Failure(e))
      case (a1, Success(_)) =>
        var entries := t.entries[fd := id];
        if fd !in t.entries then (a1, Table(entries, t.closeOnExec - {fd}), Success(()))
        else
          match Release(a1, t.entries[fd])
          case (a2, Failure(e)) => (a2, t.(entries := entries), Failure(e))
          case (a2, Success(_)) => (a2, Table(entries, t.closeOnExec - {fd}), Success(()))
  }

  function Duplicate(a: Arena, t: Table, source: Fd, destination: Fd): (Arena, Table, Outcome<()>) {
    if source !in t.entries then (a, t, Failure(InvalidFd))
    else if source == destination then (a, t, Success(()))
    else Install(a, t, destination, t.entries[source])
  }

  function SetCloseOnExec(t: Table, fd: Fd, enabled: bool): (Table, Outcome<()>) {
    if fd !in t.entries then (t, Failure(InvalidFd))
    else (t.(closeOnExec := if enabled then t.closeOnExec + {fd} else t.closeOnExec - {fd}), Success(()))
  }

  function Close(a: Arena, t: Table, fd: Fd): (Arena, Table, Outcome<()>) {
    if fd !in t.entries then (a, t, Failure(InvalidFd))
    else
      var (a1, outcome) := Release(a, t.entries[fd]);
      (a1, Table(t.entries - {fd}, t.closeOnExec - {fd}), outcome)
  }

  /** The descriptors that close on exec, and what is left of the table. */
  function Flagged(t: Table): map<Fd, Id> {
    map fd | fd in t.entries && fd in t.closeOnExec :: t.entries[fd]
  }

  function CloseForExec(a: Arena, t: Table): (Arena, Table) {
    (ReleaseAll(a, Named(Flagged(t))), Table(t.entries - t.closeOnExec, {}))
  }

  function CloseAll(a: Arena, t: Table): (Arena, Table) {
    (ReleaseAll(a, Named(t.entries)), EmptyTable)
  }

  /** Retain every description of a table, giving back the ones in `done` when one is refused. */
  function Inherit(a: Arena, ids: seq<Id>, done: seq<Id>): (Arena, Outcome<()>)
    decreases |ids|
  {
    if ids == [] then (a, Success(()))
    else
      match Retain(a, ids[0])
      case (a1, Failure(e)) => (ReleaseAll(a1, done), Failure(e))
      case (a1, Success(_)) => Inherit(a1, ids[1..], done + [ids[0]])
  }

  function Fork(a: Arena, t: Table): (Arena, Outcome<Table>) {
    match Inherit(a, Named(t.entries), [])
    case (a1, Failure(e)) => (a1, Failure(e))
    case (a1, Success(_)) => (a1, Success(t))
  }
}
