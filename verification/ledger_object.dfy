// The ledger as the machine keeps it: a resource meter and a table of process contexts, updated in
// place, each method proved against the ledger function of its operation.

module LedgerObject {
  import opened Basics
  import opened MemoryLedger
  import opened LedgerExact

  class Meter {
    const cpuLimit: nat
    const memoryLimit: nat
    const outputLimit: nat
    var cpuUsed: nat
    var memory: nat
    var peak: nat
    var output: nat
    var stop: Option<Stop>

    constructor (cpuLimit: nat, memoryLimit: nat, outputLimit: nat)
      ensures View() == Resources(cpuLimit, memoryLimit, outputLimit, 0, 0, 0, 0, None)
    {
      this.cpuLimit, this.memoryLimit, this.outputLimit := cpuLimit, memoryLimit, outputLimit;
      cpuUsed, memory, peak, output, stop := 0, 0, 0, 0, None;
    }

    ghost function View(): Resources
      reads this
    {
      Resources(cpuLimit, memoryLimit, outputLimit, cpuUsed, memory, peak, output, stop)
    }

    method Charge(units: nat) returns (ok: bool)
      modifies this
      ensures (View(), ok) == ChargeCpu(old(View()), units)
    {
      if stop.Some? {
        return false;
      }
      var next := cpuUsed + units;
      if next > U64_MAX || next > cpuLimit {
        cpuUsed := cpuLimit;
        stop := Some(CpuExhausted);
        return false;
      }
      cpuUsed := next;
      return true;
    }

    method Reserve(bytes: nat) returns (ok: bool)
      modifies this
      ensures (View(), ok) == MemoryLedger.Reserve(old(View()), bytes)
    {
      if stop.Some? {
        return false;
      }
      var next := memory + bytes;
      if next > U64_MAX || next > memoryLimit {
        stop := Some(MemoryExhausted);
        return false;
      }
      memory := next;
      peak := Max(peak, next);
      return true;
    }

    method ChargeOutput(bytes: nat) returns (ok: bool)
      modifies this
      ensures (View(), ok) == MemoryLedger.ChargeOutput(old(View()), bytes)
    {
      if stop.Some? {
        return false;
      }
      var next := output + bytes;
      if next > U64_MAX {
        stop := Some(OutputLimitExceeded);
        return false;
      }
      if next > outputLimit {
        output := outputLimit;
        stop := Some(OutputLimitExceeded);
        return false;
      }
      output := next;
      return true;
    }

    method Release(bytes: nat)
      modifies this`memory
      ensures View() == MemoryLedger.Release(old(View()), bytes)
    {
      memory := Sub(memory, bytes);
    }
  }

  class Interpreter {
    const resources: Meter
    var contexts: map<Pid, Context>

    constructor (resources: Meter)
      ensures this.resources == resources && contexts == map[]
    {
      this.resources, contexts := resources, map[];
    }

    ghost function View(): Machine
      reads this, resources
    {
      Machine(resources.View(), contexts)
    }

    /** From a solvent ledger to a solvent one, with no byte lost and none counted twice. */
    ghost predicate Conserves(was: Machine)
      reads this, resources
    {
      Solvent(was) ==> Solvent(View()) && Slack(View()) == Slack(was)
    }

    /** The new view is what a running context's charge makes of the old one, and it conserves memory. */
    ghost predicate Charged(was: Machine, pid: Pid, charge: Charge)
      requires pid in was.contexts
      reads this, resources
    {
      && View() == After(was, pid, charge)
      && Conserves(was)
    }

    method ChargeExpansion(pid: Pid, bytes: nat, interrupted: bool) returns (ok: bool)
      requires pid in contexts
      modifies this, resources
      ensures Charged(old(View()), pid, Expand(bytes, interrupted))
      ensures Solvent(old(View())) ==> (ok <==> !interrupted && Room(old(resources.View()), bytes))
      ensures Solvent(old(View())) && ok ==>
                && resources.memory == old(resources.memory) + bytes
                && contexts[pid].expansion == old(contexts[pid].expansion) + bytes
    {
      if Solvent(View()) {
        SolventCovers(View(), pid);
        ExpandExactly(resources.View(), contexts[pid], bytes);
        ReserveExactly(resources.View(), bytes);
      }
      hide MemoryLedger.Reserve, Solvent, Slack;
      ChargeConserves(View(), pid, Expand(bytes, interrupted));
      ok := false;
      assert contexts[pid := contexts[pid]] == contexts;
      if interrupted {
        return;
      }
      ok := resources.Reserve(bytes);
      if ok {
        contexts := contexts[pid := contexts[pid].(expansion := Sat(contexts[pid].expansion + bytes))];
      }
    }

    method ReleaseExpansionMemory(pid: Pid)
      requires pid in contexts
      modifies this, resources
      ensures Charged(old(View()), pid, EndExpansion)
    {
      hide Solvent, Slack;
      ChargeConserves(View(), pid, EndExpansion);
      var reserved := contexts[pid].expansion;
      contexts := contexts[pid := contexts[pid].(expansion := 0)];
      resources.Release(reserved);
    }

    method SyncShellMemory(pid: Pid) returns (ok: bool)
      requires pid in contexts
      modifies this, resources
      ensures Charged(old(View()), pid, Sync)
      ensures ok ==> contexts[pid].state == Growth(old(contexts[pid]))
      ensures !ok ==> contexts == old(contexts) && resources.stop.Some?
    {
      hide MemoryLedger.Reserve, Solvent, Slack;
      ChargeConserves(View(), pid, Sync);
      var c := contexts[pid];
      assert contexts[pid := c] == contexts;
      var target := Sub(c.stateBytes, c.baseline);
      if target > c.state {
        RefusalStops(resources.View(), target - c.state);
        ok := resources.Reserve(target - c.state);
        if !ok {
          return;
        }
      } else {
        resources.Release(c.state - target);
      }
      contexts := contexts[pid := c.(state := target)];
      return true;
    }

    method ReleaseExecMetadata(pid: Pid)
      requires pid in contexts
      modifies this, resources
      ensures Charged(old(View()), pid, EndImage)
    {
      hide SyncState, Solvent, Slack;
      ChargeConserves(View(), pid, EndImage);
      if contexts[pid].exec == 0 {
        assert contexts[pid := contexts[pid]] == contexts;
        return;
      }
      SyncKeepsExec(resources.View(), contexts[pid]);
      var _ := SyncShellMemory(pid);
      var bytes := contexts[pid].exec;
      contexts := contexts[pid := contexts[pid].(exec := 0)];
      assert contexts == old(contexts)[pid := contexts[pid]];
      resources.Release(bytes);
    }

    method LoadProgram(pid: Pid, bytes: nat, loaded: bool) returns (ok: bool)
      requires pid in contexts
      modifies this, resources
      ensures Charged(old(View()), pid, LoadImage(bytes, loaded))
      ensures Solvent(old(View())) ==> (ok <==> loaded && Room(old(resources.View()), bytes))
      ensures ok ==> contexts[pid].exec == bytes
      ensures !ok ==> contexts == old(contexts)
    {
      if Solvent(View()) {
        ReserveExactly(resources.View(), bytes);
      }
      hide MemoryLedger.Reserve, Solvent, Slack;
      ChargeConserves(View(), pid, LoadImage(bytes, loaded));
      assert contexts[pid := contexts[pid]] == contexts;
      var reserved := resources.Reserve(bytes);
      if !reserved {
        return false;
      }
      if loaded {
        var prior := contexts[pid].exec;
        contexts := contexts[pid := contexts[pid].(exec := bytes)];
        resources.Release(prior);
      } else {
        resources.Release(bytes);
      }
      return loaded;
    }

    method GrowState(pid: Pid, stateBytes: nat)
      requires pid in contexts
      modifies this`contexts
      ensures Charged(old(View()), pid, Grow(stateBytes))
    {
      hide Solvent, Slack;
      ChargeConserves(View(), pid, Grow(stateBytes));
      contexts := contexts[pid := contexts[pid].(stateBytes := stateBytes)];
    }

    method CreateChild(parent: Pid, child: Pid, forkBytes: nat, fate: Fate) returns (born: bool)
      requires parent in contexts
      modifies this, resources
      ensures (View(), born) == MemoryLedger.CreateChild(old(View()), parent, child, forkBytes, fate)
      ensures child !in old(contexts) ==> Conserves(old(View()))
      ensures !born ==> contexts == old(contexts)
    {
      hide MemoryLedger.Reserve, Solvent, Slack;
      if child !in contexts && Solvent(View()) {
        CreateConserves(View(), parent, child, forkBytes, fate);
      }
      if forkBytes > MAX_FORK_STATE {
        return false;
      }
      var allocation := forkBytes + 256;
      var ok := resources.Reserve(allocation);
      if !ok {
        return false;
      }
      if !fate.Born? {
        resources.Release(allocation);
        return false;
      }
      contexts := contexts[child := Newborn(allocation, contexts[parent].stateBytes)];
      return true;
    }

    /** The end of a finished or cancelled context. */
    method EndChild(pid: Pid)
      modifies this, resources
      ensures View() == End(old(View()), pid) && Conserves(old(View()))
    {
      hide Solvent, Slack;
      if Solvent(View()) {
        EndConserves(View(), pid);
      }
      if pid in contexts {
        var child := contexts[pid];
        contexts := contexts - {pid};
        resources.Release(Sat(Sat(Sat(child.fork + child.exec) + child.state) + child.expansion));
      }
    }

    method Apply(pid: Pid, charge: Charge)
      requires pid in contexts
      modifies this, resources
      ensures Charged(old(View()), pid, charge)
    {
      hide Do;
      match charge {
        case Grow(stateBytes) => GrowState(pid, stateBytes);
        case Expand(bytes, interrupted) => var _ := ChargeExpansion(pid, bytes, interrupted);
        case EndExpansion => ReleaseExpansionMemory(pid);
        case Sync => var _ := SyncShellMemory(pid);
        case LoadImage(bytes, loaded) => var _ := LoadProgram(pid, bytes, loaded);
        case EndImage => ReleaseExecMetadata(pid);
      }
    }

    /** What a prepared child does before it is dispatched. */
    method SetUp(child: Pid, setup: seq<Charge>)
      requires child in contexts
      modifies this, resources
      ensures child in old(contexts)
      ensures var (r, c) := DoAll(old(resources.View()), old(contexts[child]), setup);
              View() == Machine(r, old(contexts)[child := c])
      ensures Conserves(old(View()))
    {
      hide Do, Solvent, Slack;
      var i := 0;
      assert setup[0..] == setup && contexts[child := contexts[child]] == contexts;
      while i < |setup|
        invariant i <= |setup| && child in contexts
        invariant contexts == old(contexts)[child := contexts[child]] && Conserves(old(View()))
        invariant DoAll(resources.View(), contexts[child], setup[i..]) ==
                  DoAll(old(resources.View()), old(contexts[child]), setup)
      {
        assert setup[i..][1..] == setup[i + 1..];
        Apply(child, setup[i]);
        i := i + 1;
      }
    }

    method SpawnPosixChild(parent: Pid, child: Pid, forkBytes: nat, launch: nat, snapshot: nat, work: nat, fate: Fate,
                           setup: seq<Charge>, ready: bool)
      returns (ok: bool)
      requires parent in contexts
      modifies this, resources
      ensures (View(), ok) == SpawnPosix(old(View()), parent, child, forkBytes, launch, snapshot, work, fate, setup,
                                         ready)
      ensures child !in old(contexts) ==> Conserves(old(View()))
      ensures child !in old(contexts) && Solvent(old(View())) && !ok ==>
                contexts == old(contexts) && resources.memory == old(resources.memory)
    {
      hide MemoryLedger.Reserve, ChargeCpu, MemoryLedger.CreateChild, DoAll, End, Solvent, Slack;
      if child !in contexts && Solvent(View()) {
        SpawnConserves(View(), parent, child, forkBytes, launch, snapshot, work, fate, setup, ready);
      }
      var held := Sat(snapshot + launch);
      var reserved := resources.Reserve(held);
      if !reserved {
        return false;
      }
      var charged := resources.Charge(work);
      if !charged {
        resources.Release(held);
        return false;
      }
      BornIsListed(View(), parent, child, forkBytes, fate);
      var born := CreateChild(parent, child, forkBytes, fate);
      if !born {
        resources.Release(held);
        return false;
      }
      ghost var listed := contexts;
      contexts := contexts[child := contexts[child].(fork := contexts[child].fork + launch)];
      SetUp(child, setup);
      assert contexts == listed[child := contexts[child]];
      if !ready {
        EndChild(child);
      }
      resources.Release(snapshot);
      return ready;
    }
  }

  function After(m: Machine, pid: Pid, charge: Charge): Machine
    requires pid in m.contexts
  {
    var (r, c) := Do(m.resources, m.contexts[pid], charge);
    Machine(r, m.contexts[pid := c])
  }

  lemma ChargeConserves(m: Machine, pid: Pid, charge: Charge)
    requires pid in m.contexts
    ensures Solvent(m) ==> Solvent(After(m, pid, charge)) && Slack(After(m, pid, charge)) == Slack(m)
  {
    hide Solvent, Slack, Do;
    if Solvent(m) {
      TakeConserves(m, Charges(pid, charge));
    }
  }

  lemma SyncKeepsExec(r: Resources, c: Context)
    ensures SyncState(r, c).1.exec == c.exec
  {
  }

  lemma BornIsListed(m: Machine, parent: Pid, child: Pid, forkBytes: nat, fate: Fate)
    requires parent in m.contexts
    ensures var (after, born) := MemoryLedger.CreateChild(m, parent, child, forkBytes, fate);
            born ==> child in after.contexts
  {
  }
}
