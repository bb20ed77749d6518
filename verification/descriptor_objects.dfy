// The arena and the descriptor table as the objects the machine updates in place. Each method is
// proved against the function on values that specifies it, so every property proved of runs of
// those functions is a property of runs of these methods.

module DescriptorObjects {
  import opened Basics
  import D = Descriptors
  import opened DescriptorRuns

  class DescriptorArena {
    var nextDescription: nat
    var nextPipe: nat
    var descriptions: map<D.Id, D.Entry>
    var pipes: map<D.PipeId, D.Pipe>
    var fileLocksChanged: bool
    var fileLockGeneration: nat

    constructor ()
      ensures View() == D.EmptyArena
    {
      nextDescription, nextPipe, descriptions, pipes := 1, 1, map[], map[];
      fileLocksChanged, fileLockGeneration := false, 0;
    }

    ghost function View(): D.Arena
      reads this
    {
      D.Arena(nextDescription, nextPipe, descriptions, pipes, fileLocksChanged, fileLockGeneration)
    }

    method Allocate(description: D.Description) returns (r: D.Outcome<D.Id>)
      modifies this
      ensures (View(), r) == D.Allocate(old(View()), description)
    {
      if |descriptions| >= D.MAX_DESCRIPTIONS || nextDescription >= D.U32_MAX {
        return D.Failure(D.DescriptionLimit);
      }
      var id := nextDescription;
      nextDescription := nextDescription + 1;
      descriptions := descriptions[id := D.Entry(description, 0, false, None)];
      return D.Success(id);
    }

    method OpenPipe(capacity: nat) returns (r: D.Outcome<(D.Id, D.Id)>)
      modifies this
      ensures (View(), r) == D.OpenPipe(old(View()), capacity)
    {
      hide D.Allocate;
      if capacity == 0 || capacity > D.PIPE_CAPACITY {
        return D.Failure(D.InvalidPipeCapacity);
      }
      if |pipes| >= D.MAX_PIPES || nextPipe >= D.U32_MAX {
        return D.Failure(D.PipeLimit);
      }
      var pipe := nextPipe;
      nextPipe := nextPipe + 1;
      pipes := pipes[pipe := D.Pipe([], capacity, 1, 1)];
      var reader := Allocate(D.PipeReader(pipe));
      if reader.Failure? {
        pipes := pipes - {pipe};
        return D.Failure(reader.error);
      }
      var writer := Allocate(D.PipeWriter(pipe));
      if writer.Failure? {
        descriptions := descriptions - {reader.value};
        pipes := pipes - {pipe};
        return D.Failure(writer.error);
      }
      return D.Success((reader.value, writer.value));
    }

    method Retain(id: D.Id) returns (r: D.Outcome<()>)
      modifies this`descriptions
      ensures (View(), r) == D.Retain(old(View()), id)
    {
      if id !in descriptions {
        return D.Failure(D.InvalidFd);
      }
      var entry := descriptions[id];
      if entry.references >= D.U32_MAX {
        return D.Failure(D.ReferenceOverflow);
      }
      descriptions := descriptions[id := entry.(references := entry.references + 1)];
      return D.Success(());
    }

    method NoteLockRelease()
      modifies this`fileLocksChanged, this`fileLockGeneration
      ensures View() == D.LockReleased(old(View()))
    {
      fileLocksChanged := true;
      fileLockGeneration := (fileLockGeneration + 1) % TWO64;
    }

    method Disconnect(pipe: D.PipeId, reader: bool)
      modifies this`pipes
      ensures pipes == D.Disconnect(old(pipes), pipe, reader)
    {
      if pipe in pipes {
        var state := pipes[pipe];
        if reader {
          state := state.(readers := D.Minus1(state.readers));
        } else {
          state := state.(writers := D.Minus1(state.writers));
        }
        pipes := pipes[pipe := state];
        if state.readers == 0 && state.writers == 0 {
          pipes := pipes - {pipe};
          assert pipes == old(pipes) - {pipe};
        }
      }
    }

    method Release(id: D.Id) returns (r: D.Outcome<()>)
      modifies this
      ensures (View(), r) == D.Release(old(View()), id)
    {
      hide D.Disconnect, D.LockReleased;
      if id !in descriptions || descriptions[id].references == 0 {
        return D.Failure(D.InvalidFd);
      }
      var entry := descriptions[id];
      if entry.references > 1 {
        descriptions := descriptions[id := entry.(references := entry.references - 1)];
        return D.Success(());
      }
      descriptions := descriptions - {id};
      if entry.lock.Some? {
        NoteLockRelease();
      }
      match entry.description {
        case PipeReader(pipe) => Disconnect(pipe, true);
        case PipeWriter(pipe) => Disconnect(pipe, false);
        case _ =>
      }
      return D.Success(());
    }

    method DiscardUnreferenced(id: D.Id) returns (r: D.Outcome<()>)
      modifies this
      ensures (View(), r) == D.Discard(old(View()), id)
    {
      hide D.Release, D.Retain;
      if id !in descriptions {
        return D.Failure(D.InvalidFd);
      }
      if descriptions[id].references != 0 {
        return D.Failure(D.WrongAccess);
      }
      r := Retain(id);
      if r.Success? {
        r := Release(id);
      }
    }

    /** Scan the descriptions for a lock that conflicts with a request. */
    method Conflicting(inode: nat, mode: D.Mode) returns (found: bool)
      ensures found <==> exists other | other in descriptions :: D.Conflict(descriptions[other].lock, inode, mode)
    {
      var rest := descriptions.Keys;
      while rest != {}
        invariant rest <= descriptions.Keys
        invariant forall other :: other in descriptions && other !in rest ==>
                    !D.Conflict(descriptions[other].lock, inode, mode)
        decreases |rest|
      {
        assert (forall id :: id !in rest) ==> rest == {};
        var id :| id in rest;
        if D.Conflict(descriptions[id].lock, inode, mode) {
          return true;
        }
        rest := rest - {id};
      }
      return false;
    }

    method FileLock(id: D.Id, inode: nat, mode: Option<D.Mode>) returns (r: D.Outcome<bool>)
      modifies this
      ensures (View(), r) == D.SetLock(old(View()), id, inode, mode)
    {
      hide D.LockReleased, D.Conflict;
      if id !in descriptions {
        return D.Failure(D.InvalidFd);
      }
      var entry := descriptions[id];
      if entry.lock == D.Wanted(inode, mode) {
        return D.Success(true);
      }
      if entry.lock.Some? {
        descriptions := descriptions[id := entry.(lock := None)];
        NoteLockRelease();
      }
      assert View() == D.Unlocked(old(View()), id);
      if mode.None? {
        return D.Success(true);
      }
      var refused := Conflicting(inode, mode.value);
      if refused {
        return D.Success(false);
      }
      descriptions := descriptions[id := descriptions[id].(lock := Some(D.Lock(inode, mode.value)))];
      return D.Success(true);
    }

    method TakeFileLockChanges() returns (changed: bool)
      modifies this`fileLocksChanged
      ensures changed == old(fileLocksChanged) && View() == old(View()).(locksChanged := false)
    {
      changed := fileLocksChanged;
      fileLocksChanged := false;
    }

    method Read(id: D.Id, maximum: nat) returns (r: D.Outcome<D.Poll<seq<Byte>>>)
      modifies this`descriptions, this`pipes
      ensures (View(), r) == D.Read(old(View()), id, maximum)
    {
      if id !in descriptions {
        return D.Failure(D.InvalidFd);
      }
      var entry := descriptions[id];
      match entry.description {
        case Input(bytes, cursor, closed) =>
          if cursor >= |bytes| {
            return D.Success(if closed then D.Ready([]) else D.Blocked(D.InputReadable(id)));
          }
          var end := D.Min(cursor + maximum, |bytes|);
          descriptions := descriptions[id := entry.(description := D.Input(bytes, end, closed))];
          return D.Success(D.Ready(bytes[cursor..end]));
        case Null(true, _) => return D.Success(D.Ready([]));
        case Zero(true, _) => return D.Success(D.Ready(seq(maximum, _ => 0)));
        case PipeReader(pipe) =>
          if pipe !in pipes {
            return D.Failure(D.InvalidFd);
          }
          var state := pipes[pipe];
          if state.bytes == [] && state.writers > 0 {
            return D.Success(D.Blocked(D.PipeReadable(pipe)));
          }
          var count := D.Min(maximum, |state.bytes|);
          pipes := pipes[pipe := state.(bytes := state.bytes[count..])];
          return D.Success(D.Ready(state.bytes[..count]));
        case _ => return D.Failure(D.WrongAccess);
      }
    }

    method Write(id: D.Id, bytes: seq<Byte>) returns (r: D.Outcome<D.Poll<nat>>)
      modifies this`descriptions, this`pipes
      ensures (View(), r) == D.Write(old(View()), id, bytes)
    {
      if id !in descriptions {
        return D.Failure(D.InvalidFd);
      }
      var entry := descriptions[id];
      match entry.description {
        case Capture(output, delivered) =>
          if |output| + |bytes| > D.MAX_CAPTURE {
            return D.Failure(D.OutputLimit);
          }
          descriptions := descriptions[id := entry.(description := D.Capture(output + bytes, delivered))];
          return D.Success(D.Ready(|bytes|));
        case Null(_, true) => return D.Success(D.Ready(|bytes|));
        case Zero(_, true) => return D.Success(D.Ready(|bytes|));
        case PipeWriter(pipe) =>
          if pipe !in pipes {
            return D.Failure(D.InvalidFd);
          }
          var state := pipes[pipe];
          if state.readers == 0 {
            return D.Failure(D.BrokenPipe);
          }
          var available := D.Sub(state.capacity, |state.bytes|);
          if available == 0 {
            return D.Success(D.Blocked(D.PipeWritable(pipe)));
          }
          var count := D.Min(available, |bytes|);
          pipes := pipes[pipe := state.(bytes := state.bytes + bytes[..count])];
          return D.Success(D.Ready(count));
        case _ => return D.Failure(D.WrongAccess);
      }
    }

    method AppendInput(id: D.Id, input: seq<Byte>) returns (r: D.Outcome<()>)
      modifies this`descriptions
      ensures (View(), r) == D.AppendInput(old(View()), id, input)
    {
      if id !in descriptions {
        return D.Failure(D.InvalidFd);
      }
      var entry := descriptions[id];
      if !entry.description.Input? || entry.description.closed {
        return D.Failure(D.WrongAccess);
      }
      if |entry.description.bytes| + |input| > D.MAX_CAPTURE {
        return D.Failure(D.OutputLimit);
      }
      var bytes, cursor := entry.description.bytes + input, entry.description.cursor;
      descriptions := descriptions[id := entry.(description := D.Input(bytes, cursor, false))];
      return D.Success(());
    }

    method CloseInput(id: D.Id) returns (r: D.Outcome<()>)
      modifies this`descriptions
      ensures (View(), r) == D.CloseInput(old(View()), id)
    {
      if id !in descriptions {
        return D.Failure(D.InvalidFd);
      }
      var entry := descriptions[id];
      if !entry.description.Input? {
        return D.Failure(D.WrongAccess);
      }
      descriptions := descriptions[id := entry.(description := entry.description.(closed := true))];
      return D.Success(());
    }

    method DrainCapture(id: D.Id) returns (r: D.Outcome<seq<Byte>>)
      modifies this`descriptions
      ensures (View(), r) == D.DrainCapture(old(View()), id)
    {
      if id !in descriptions {
        return D.Failure(D.InvalidFd);
      }
      var entry := descriptions[id];
      if !entry.description.Capture? {
        return D.Failure(D.WrongAccess);
      }
      var bytes := entry.description.bytes;
      var output := bytes[D.Min(entry.description.delivered, |bytes|)..];
      descriptions := descriptions[id := entry.(description := D.Capture(bytes, |bytes|))];
      return D.Success(output);
    }
  }

  class FdTable {
    var entries: map<D.Fd, D.Id>
    var closeOnExec: set<D.Fd>

    constructor ()
      ensures View() == D.EmptyTable
    {
      entries, closeOnExec := map[], {};
    }

    constructor Copy(entries: map<D.Fd, D.Id>, closeOnExec: set<D.Fd>)
      ensures View() == D.Table(entries, closeOnExec)
    {
      this.entries, this.closeOnExec := entries, closeOnExec;
    }

    ghost function View(): D.Table
      reads this
    {
      D.Table(entries, closeOnExec)
    }

    method Install(fd: D.Fd, description: D.Id, arena: DescriptorArena) returns (r: D.Outcome<()>)
      modifies this, arena
      ensures (arena.View(), View(), r) == D.Install(old(arena.View()), old(View()), fd, description)
    {
      hide D.Release, D.Retain;
      if fd < 0 {
        return D.Failure(D.InvalidFd);
      }
      if fd !in entries && |entries| >= D.MAX_FDS {
        return D.Failure(D.DescriptorLimit);
      }
      r := arena.Retain(description);
      if r.Failure? {
        return;
      }
      var previous := if fd in entries then Some(entries[fd]) else None;
      entries := entries[fd := description];
      if previous.Some? {
        r := arena.Release(previous.value);
        if r.Failure? {
          return;
        }
      }
      closeOnExec := closeOnExec - {fd};
      return D.Success(());
    }

    method Duplicate(source: D.Fd, destination: D.Fd, arena: DescriptorArena) returns (r: D.Outcome<()>)
      modifies this, arena
      ensures (arena.View(), View(), r) == D.Duplicate(old(arena.View()), old(View()), source, destination)
    {
      if source !in entries {
        return D.Failure(D.InvalidFd);
      }
      if source == destination {
        return D.Success(());
      }
      r := Install(destination, entries[source], arena);
    }

    method SetCloseOnExec(fd: D.Fd, enabled: bool) returns (r: D.Outcome<()>)
      modifies this
      ensures (View(), r) == D.SetCloseOnExec(old(View()), fd, enabled)
    {
      if fd !in entries {
        return D.Failure(D.InvalidFd);
      }
      if enabled {
        closeOnExec := closeOnExec + {fd};
      } else {
        closeOnExec := closeOnExec - {fd};
      }
      return D.Success(());
    }

    method Close(fd: D.Fd, arena: DescriptorArena) returns (r: D.Outcome<()>)
      modifies this, arena
      ensures (arena.View(), View(), r) == D.Close(old(arena.View()), old(View()), fd)
    {
      hide D.Release;
      if fd !in entries {
        return D.Failure(D.InvalidFd);
      }
      var description := entries[fd];
      entries := entries - {fd};
      closeOnExec := closeOnExec - {fd};
      r := arena.Release(description);
    }

    /** Close the flagged descriptors in the order of their numbers. */
    method CloseForExec(arena: DescriptorArena)
      modifies this, arena
      ensures (arena.View(), View()) == D.CloseForExec(old(arena.View()), old(View()))
    {
      hide D.ReleaseAll, D.Close, D.Release, Left, D.Named, D.Flagged;
      ghost var start, table := arena.View(), View();
      var rest := D.Flagged(D.Table(entries, closeOnExec));
      closeOnExec := {};
      LeftAll(table);
      while rest != map[]
        invariant closeOnExec == {} && rest.Keys <= table.closeOnExec && entries == Left(table, rest)
        invariant D.ReleaseAll(arena.View(), D.Named(rest)) == D.ReleaseAll(start, D.Named(D.Flagged(table)))
        decreases |rest|
      {
        var fd := D.Least(rest);
        NamedStep(arena.View(), rest);
        LeftLess(table, rest, fd);
        CloseStep(arena.View(), View(), fd);
        var _ := Close(fd, arena);
        rest := rest - {fd};
      }
      NoneLeft(arena.View());
      LeftNone(table);
    }

    method CloseAll(arena: DescriptorArena)
      modifies this, arena
      ensures (arena.View(), View()) == D.CloseAll(old(arena.View()), old(View()))
    {
      hide D.ReleaseAll, D.Release;
      ghost var start, named := arena.View(), D.Named(entries);
      closeOnExec := {};
      var rest := entries;
      entries := map[];
      while rest != map[]
        invariant closeOnExec == {} && entries == map[]
        invariant D.ReleaseAll(arena.View(), D.Named(rest)) == D.ReleaseAll(start, named)
        decreases |rest|
      {
        var fd := D.Least(rest);
        NamedStep(arena.View(), rest);
        var _ := arena.Release(rest[fd]);
        rest := rest - {fd};
      }
      NoneLeft(arena.View());
    }

    /** A copy of the table for a child, with every description retained, or no change at all. */
    method Fork(arena: DescriptorArena) returns (r: D.Outcome<FdTable>)
      modifies arena
      ensures r.Success? ==> fresh(r.value)
      ensures arena.View() == D.Fork(old(arena.View()), View()).0
      ensures D.Fork(old(arena.View()), View()).1 ==
              if r.Success? then D.Success(r.value.View()) else D.Failure(r.error)
    {
      hide D.Retain, D.Inherit, D.ReleaseAll;
      var retained: seq<D.Id> := [];
      var rest := entries;
      ghost var outcome := D.Inherit(arena.View(), D.Named(entries), []);
      while rest != map[]
        invariant D.Inherit(arena.View(), D.Named(rest), retained) == outcome
        decreases |rest|
      {
        var fd := D.Least(rest);
        InheritStep(arena.View(), rest, retained);
        var kept := arena.Retain(rest[fd]);
        if kept.Failure? {
          ReleaseRetained(retained, arena);
          return D.Failure(kept.error);
        }
        retained := retained + [rest[fd]];
        rest := rest - {fd};
      }
      InheritDone(arena.View(), retained);
      var copy := new FdTable.Copy(entries, closeOnExec);
      return D.Success(copy);
    }
  }

  method ReleaseRetained(ids: seq<D.Id>, arena: DescriptorArena)
    modifies arena
    ensures arena.View() == D.ReleaseAll(old(arena.View()), ids)
  {
    hide D.Release;
    var i := 0;
    while i < |ids|
      invariant i <= |ids| && D.ReleaseAll(arena.View(), ids[i..]) == D.ReleaseAll(old(arena.View()), ids)
    {
      assert ids[i..][1..] == ids[i + 1..];
      var _ := arena.Release(ids[i]);
      i := i + 1;
    }
  }

  // ----- Facts the loops use -----

  lemma NamedStep(a: D.Arena, rest: map<D.Fd, D.Id>)
    requires rest != map[]
    ensures var fd := D.Least(rest);
            && D.ReleaseAll(a, D.Named(rest)) == D.ReleaseAll(D.Release(a, rest[fd]).0, D.Named(rest - {fd}))
            && |rest - {fd}| < |rest|
  {
    hide D.Release;
    var fd := D.Least(rest);
    NamedFirst(rest);
    assert D.Named(rest) == [rest[fd]] + D.Named(rest - {fd});
  }

  /** A table's unflagged entries and the flagged ones still to close. */
  function Left(t: D.Table, rest: map<D.Fd, D.Id>): map<D.Fd, D.Id> {
    (t.entries - t.closeOnExec) + rest
  }

  lemma LeftAll(t: D.Table)
    ensures Left(t, D.Flagged(t)) == t.entries && D.Flagged(t).Keys <= t.closeOnExec
  {
  }

  lemma LeftLess(t: D.Table, rest: map<D.Fd, D.Id>, fd: D.Fd)
    requires fd in rest && rest.Keys <= t.closeOnExec
    ensures fd in Left(t, rest) && Left(t, rest)[fd] == rest[fd] && Left(t, rest) - {fd} == Left(t, rest - {fd})
  {
  }

  lemma LeftNone(t: D.Table)
    ensures Left(t, map[]) == t.entries - t.closeOnExec
  {
  }

  lemma CloseStep(a: D.Arena, t: D.Table, fd: D.Fd)
    requires fd in t.entries
    ensures D.Close(a, t, fd).0 == D.Release(a, t.entries[fd]).0
    ensures D.Close(a, t, fd).1 == D.Table(t.entries - {fd}, t.closeOnExec - {fd})
  {
    hide D.Release;
  }

  lemma NoneLeft(a: D.Arena)
    ensures D.ReleaseAll(a, D.Named(map[])) == a
  {
    NamedNone();
  }

  /** How inheriting goes on once the first description was retained or refused. */
  function InheritNext(r: (D.Arena, D.Outcome<()>), ids: seq<D.Id>, done: seq<D.Id>,
                       id: D.Id): (D.Arena, D.Outcome<()>) {
    if r.1.Failure? then (D.ReleaseAll(r.0, done), D.Failure(r.1.error)) else D.Inherit(r.0, ids, done + [id])
  }

  lemma InheritStep(a: D.Arena, rest: map<D.Fd, D.Id>, done: seq<D.Id>)
    requires rest != map[]
    ensures var fd := D.Least(rest);
            && |rest - {fd}| < |rest|
            && D.Inherit(a, D.Named(rest), done) ==
               InheritNext(D.Retain(a, rest[fd]), D.Named(rest - {fd}), done, rest[fd])
  {
    hide D.Retain;
    var fd := D.Least(rest);
    NamedFirst(rest);
    assert D.Named(rest) == [rest[fd]] + D.Named(rest - {fd});
  }

  lemma InheritDone(a: D.Arena, done: seq<D.Id>)
    ensures D.Inherit(a, D.Named(map[]), done) == (a, D.Success(()))
  {
    NamedNone();
  }
}
