// What every table operation leaves at every descriptor number.

module DescriptorTables {
  import opened Basics
  import opened Descriptors
  import opened DescriptorRuns

  /** A table that differs from another at one number. */
  ghost predicate SameElsewhere(t: Table, u: Table, fd: Fd) {
    forall other :: other != fd ==>
      && (other in u.entries <==> other in t.entries) && (other in u.entries ==> u.entries[other] == t.entries[other])
      && (other in u.closeOnExec <==> other in t.closeOnExec)
  }

  /** Installing succeeds exactly for a number that is not negative, in a table that has the number or room
      for it, and a live description that can take one more reference. Then the number names the description
      and does not close on exec, and every other number is as before; a refusal changes nothing. */
  lemma InstallExactly(w: World, pid: Pid, fd: Fd, id: Id)
    requires Sound(w)
    ensures var t := TableOf(w, pid);
            var (a, u, r) := Install(w.arena, t, fd, id);
            && (r.Success? <==> fd >= 0 && (fd in t.entries || |t.entries| < MAX_FDS) && id in w.arena.descriptions &&
                                w.arena.descriptions[id].references < U32_MAX)
            && (r.Success? ==>
                  fd in u.entries && u.entries[fd] == id && fd !in u.closeOnExec && SameElsewhere(t, u, fd))
            && (r.Failure? ==> u == t && a == w.arena)
  {
    hide Sound, Release;
    var t := TableOf(w, pid);
    if fd in t.entries && fd >= 0 && Retain(w.arena, id).1.Success? {
      HeldSound(w, id);
      ReplaceSound(Held(w, id), pid, fd, id);
    }
  }

  /** Duplicating succeeds exactly for an open source that can be installed at the destination, or stands there
      already; a number duplicated onto itself changes nothing, otherwise the destination names the description
      of the source and every other number is as before. */
  lemma DuplicateExactly(w: World, pid: Pid, source: Fd, destination: Fd)
    requires Sound(w)
    ensures var t := TableOf(w, pid);
            var (a, u, r) := Duplicate(w.arena, t, source, destination);
            && (r.Success? <==>
                && source in t.entries
                && (source == destination ||
                    (destination >= 0 && (destination in t.entries || |t.entries| < MAX_FDS) &&
                     t.entries[source] in w.arena.descriptions &&
                     w.arena.descriptions[t.entries[source]].references < U32_MAX)))
            && (source == destination ==> u == t && a == w.arena)
            && (r.Success? && source != destination ==>
                  && destination in u.entries && u.entries[destination] == t.entries[source]
                  && destination !in u.closeOnExec && SameElsewhere(t, u, destination))
            && (r.Failure? ==> u == t && a == w.arena)
  {
    hide Sound, Install, SameElsewhere;
    var t := TableOf(w, pid);
    if source in t.entries {
      InstallExactly(w, pid, destination, t.entries[source]);
    }
  }

  /** Closing succeeds exactly for an open number, which is then free; every other number is as before. */
  lemma CloseExactly(w: World, pid: Pid, fd: Fd)
    requires Sound(w)
    ensures var t := TableOf(w, pid);
            var (a, u, r) := Close(w.arena, t, fd);
            && (r.Success? <==> fd in t.entries) && fd !in u.entries && SameElsewhere(t, u, fd)
            && (r.Success? ==> fd !in u.closeOnExec) && (r.Failure? ==> u == t && a == w.arena)
  {
    hide Counted, NoneDangles, ArenaSound, TablesSound;
    if fd in TableOf(w, pid).entries {
      OpenIsHeld(w, pid, fd);
    }
  }

  lemma OpenIsHeld(w: World, pid: Pid, fd: Fd)
    requires Sound(w) && fd in TableOf(w, pid).entries
    ensures var id := TableOf(w, pid).entries[fd]; id in w.arena.descriptions && w.arena.descriptions[id].references > 0
  {
    hide ArenaSound, TablesSound;
    var id := TableOf(w, pid).entries[fd];
    assert CountedAt(w, id);
    assert (pid, fd) in Owners(w.tables, id);
  }

  /** Exec keeps exactly the numbers that are not flagged, each as it was, and clears the flags. */
  lemma ExecExactly(a: Arena, t: Table)
    ensures var u := CloseForExec(a, t).1;
            && u.closeOnExec == {}
            && (forall fd :: fd in u.entries <==> fd in t.entries && fd !in t.closeOnExec)
            && (forall fd :: fd in u.entries ==> u.entries[fd] == t.entries[fd])
  {
  }

  /** Flagging an open number changes that flag alone; an unused number is refused. */
  lemma FlagExactly(t: Table, fd: Fd, enabled: bool)
    ensures var (u, r) := SetCloseOnExec(t, fd, enabled);
            && (r.Success? <==> fd in t.entries) && u.entries == t.entries
            && (forall other :: other != fd ==> (other in u.closeOnExec <==> other in t.closeOnExec))
            && (if r.Success? then (fd in u.closeOnExec <==> enabled) else u == t)
  {
  }

  /** Another description holds a lock on the inode that does not go with the wanted mode. */
  ghost predicate Barred(a: Arena, id: Id, inode: nat, mode: Mode) {
    exists other :: other in a.descriptions && other != id && Bars(a.descriptions[other].lock, inode, mode)
  }

  /** Two locks on an inode go together only when both are shared. */
  predicate Bars(held: Option<Lock>, inode: nat, mode: Mode) {
    held.Some? && held.value.inode == inode && !(held.value.mode == Shared && mode == Shared)
  }

  /** A lock is granted exactly when the description holds it already or no other description bars it. The lock
      it held before is given up either way, and only then waiters are told; no other lock changes. */
  lemma LockExactly(a: Arena, id: Id, inode: nat, mode: Mode)
    requires id in a.descriptions
    ensures var (b, r) := SetLock(a, id, inode, Some(mode));
            var held, wanted := a.descriptions[id].lock, Some(Lock(inode, mode));
            && r == Success(held == wanted || !Barred(a, id, inode, mode))
            && b.descriptions == a.descriptions[id := a.descriptions[id].(lock := if r.value then wanted else None)]
            && b == a.(descriptions := b.descriptions, locksChanged := b.locksChanged, generation := b.generation)
            && b.locksChanged == (a.locksChanged || (held.Some? && held != wanted))
            && b.generation == if held.Some? && held != wanted then (a.generation + 1) % TWO64 else a.generation
  {
    var held, wanted := a.descriptions[id].lock, Some(Lock(inode, mode));
    if held == wanted {
      assert a.descriptions[id := a.descriptions[id]] == a.descriptions;
    } else {
      var u := Unlocked(a, id);
      assert u.descriptions == a.descriptions[id := a.descriptions[id].(lock := None)];
      forall other | other in u.descriptions
        ensures Conflict(u.descriptions[other].lock, inode, mode) <==>
                other != id && Bars(a.descriptions[other].lock, inode, mode)
      {
      }
    }
  }

  /** Unlocking always succeeds and gives up the description's lock. */
  lemma UnlockExactly(a: Arena, id: Id, inode: nat)
    requires id in a.descriptions
    ensures var (b, r) := SetLock(a, id, inode, None);
            && r == Success(true) && b.descriptions == a.descriptions[id := a.descriptions[id].(lock := None)]
            && b.locksChanged == (a.locksChanged || a.descriptions[id].lock.Some?)
  {
    assert a.descriptions[id].lock.None? ==> a.descriptions[id := a.descriptions[id].(lock := None)] == a.descriptions;
  }
}
