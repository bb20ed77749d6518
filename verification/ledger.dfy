// The memory ledger: what process contexts have reserved against the machine's budget, and every
// path on which a reservation is made or given back.

module MemoryLedger {
  import opened Basics

  const MAX_FORK_STATE: nat := 33554432

  type Pid = nat

  datatype Stop = CpuExhausted | MemoryExhausted | OutputLimitExceeded

  /** The machine's budgets; a stop reason, once set, stays. */
  datatype Resources = Resources(cpuLimit: nat, memoryLimit: nat, outputLimit: nat, cpuUsed: nat, memory: nat,
                                 peak: nat,
                                 output: nat, stop: Option<Stop>)

  /** One process context: its four reservations, and the state it is measured against. */
  datatype Context = Context(fork: nat, exec: nat, state: nat, expansion: nat, baseline: nat, stateBytes: nat)

  datatype Machine = Machine(resources: Resources, contexts: map<Pid, Context>)

  function Sat(n: nat): nat {
    if n > U64_MAX then U64_MAX else n
  }

  function Sub(x: nat, y: nat): nat {
    if x <= y then 0 else x - y
  }

  function Max(x: nat, y: nat): nat {
    if x < y then y else x
  }

  function ChargeCpu(r: Resources, units: nat): (Resources, bool) {
    if r.stop.Some? then (r, false)
    else if r.cpuUsed + units > U64_MAX || r.cpuUsed + units > r.cpuLimit then
      (r.(cpuUsed := r.cpuLimit, stop := Some(CpuExhausted)), false)
    else (r.(cpuUsed := r.cpuUsed + units), true)
  }

  function Reserve(r: Resources, bytes: nat): (Resources, bool) {
    if r.stop.Some? then (r, false)
    else if r.memory + bytes > U64_MAX || r.memory + bytes > r.memoryLimit then
      (r.(stop := Some(MemoryExhausted)), false)
    else (r.(memory := r.memory + bytes, peak := Max(r.peak, r.memory + bytes)), true)
  }

  function Release(r: Resources, bytes: nat): Resources {
    r.(memory := Sub(r.memory, bytes))
  }

  function ChargeOutput(r: Resources, bytes: nat): (Resources, bool) {
    if r.stop.Some? then (r, false)
    else if r.output + bytes > U64_MAX then (r.(stop := Some(OutputLimitExceeded)), false)
    else if r.output + bytes > r.outputLimit then
      (r.(output := r.outputLimit, stop := Some(OutputLimitExceeded)), false)
    else (r.(output := r.output + bytes), true)
  }

  function OutputRemaining(r: Resources): nat {
    Sub(r.outputLimit, r.output)
  }

  /** What a context gives back when it ends, added up with saturation. */
  function Owed(c: Context): nat {
    Sat(Sat(Sat(c.fork + c.exec) + c.state) + c.expansion)
  }

  // ----- What a running context does -----

  datatype Charge =
    | Grow(stateBytes: nat)
    | Expand(bytes: nat, interrupted: bool)
    | EndExpansion
    | Sync
    | LoadImage(bytes: nat, loaded: bool)
    | EndImage

  function SyncState(r: Resources, c: Context): (Resources, Context) {
    var target := Sub(c.stateBytes, c.baseline);
    if target > c.state then
      (match Reserve(r, target - c.state)
       case (r1, false) => (r1, c)
       case (r1, true) => (r1, c.(state := target)))
    else (Release(r, c.state - target), c.(state := target))
  }

  function Do(r: Resources, c: Context, charge: Charge): (Resources, Context) {
    match charge
    case Grow(n) => (r, c.(stateBytes := n))
    case Expand(bytes, interrupted) =>
      if interrupted then (r, c)
      else (match Reserve(r, bytes)
            case (r1, false) => (r1, c)
            case (r1, true) => (r1, c.(expansion := Sat(c.expansion + bytes))))
    case EndExpansion => (Release(r, c.expansion), c.(expansion := 0))
    case Sync => SyncState(r, c)
    case LoadImage(bytes, loaded) =>
      (match Reserve(r, bytes)
       case (r1, false) => (r1, c)
       case (r1, true) => if loaded then (Release(r1, c.exec), c.(exec := bytes)) else (Release(r1, bytes), c))
    case EndImage =>
      if c.exec == 0 then (r, c)
      else
        var (r1, c1) := SyncState(r, c);
        (Release(r1, c1.exec), c1.(exec := 0))
  }

  function DoAll(r: Resources, c: Context, charges: seq<Charge>): (Resources, Context)
    decreases |charges|
  {
    if charges == [] then (r, c) else var (r1, c1) := Do(r, c, charges[0]); DoAll(r1, c1, charges[1..])
  }

  // ----- Creating and ending contexts -----

  /** How far the creation of a child gets after its memory is reserved. */
  datatype Fate = DescriptorsRefused | TableFull | NotScheduled | Born

  function Newborn(allocation: nat, stateBytes: nat): Context {
    Context(allocation, 0, 0, 0, stateBytes, stateBytes)
  }

  function CreateChild(m: Machine, parent: Pid, child: Pid, forkBytes: nat, fate: Fate): (Machine, bool)
    requires parent in m.contexts
  {
    if forkBytes > MAX_FORK_STATE then (m, false)
    else
      var allocation := forkBytes + 256;
      match Reserve(m.resources, allocation)
      case (r, false) => (m.(resources := r), false)
      case (r, true) =>
        if fate.Born? then (Machine(r, m.contexts[child := Newborn(allocation, m.contexts[parent].stateBytes)]), true)
        else (m.(resources := Release(r, allocation)), false)
  }

  /** A context removed, with everything it had reserved given back. */
  function End(m: Machine, pid: Pid): Machine {
    if pid !in m.contexts then m else Machine(Release(m.resources, Owed(m.contexts[pid])), m.contexts - {pid})
  }

  /** A child prepared with its own launch data, and removed again when its setup fails. */
  function SpawnPosix(m: Machine, parent: Pid, child: Pid, forkBytes: nat, launch: nat, snapshot: nat, work: nat,
                      fate: Fate, setup: seq<Charge>, ready: bool): (Machine, bool)
    requires parent in m.contexts
  {
    var held := Sat(snapshot + launch);
    match Reserve(m.resources, held)
    case (r, false) => (m.(resources := r), false)
    case (r, true) =>
      match ChargeCpu(r, work)
      case (r1, false) => (m.(resources := Release(r1, held)), false)
      case (r1, true) =>
        match CreateChild(m.(resources := r1), parent, child, forkBytes, fate)
        case (m2, false) => (m2.(resources := Release(m2.resources, held)), false)
        case (m2, true) =>
          var (r3, c3) := DoAll(m2.resources, m2.contexts[child].(fork := m2.contexts[child].fork + launch), setup);
          var m3 := Machine(r3, m2.contexts[child := c3]);
          var m4 := if ready then m3 else End(m3, child);
          (m4.(resources := Release(m4.resources, snapshot)), ready)
  }

  datatype Step =
    | Charges(pid: Pid, charge: Charge)
    | Create(parent: Pid, child: Pid, forkBytes: nat, fate: Fate)
    | Spawn(parent: Pid, child: Pid, forkBytes: nat, launch: nat, snapshot: nat, work: nat, fate: Fate,
            setup: seq<Charge>, ready: bool)
    | Ends(pid: Pid)
    | Works(units: nat)

  function Take(m: Machine, s: Step): Machine {
    match s
    case Charges(pid, charge) =>
      if pid !in m.contexts then m
      else var (r, c) := Do(m.resources, m.contexts[pid], charge); Machine(r, m.contexts[pid := c])
    case Create(parent, child, forkBytes, fate) =>
      if parent !in m.contexts || child in m.contexts then m else CreateChild(m, parent, child, forkBytes, fate).0
    case Spawn(parent, child, forkBytes, launch, snapshot, work, fate, setup, ready) =>
      if parent !in m.contexts || child in m.contexts then m
      else SpawnPosix(m, parent, child, forkBytes, launch, snapshot, work, fate, setup, ready).0
    case Ends(pid) => End(m, pid)
    case Works(units) => m.(resources := ChargeCpu(m.resources, units).0)
  }

  function TakeAll(m: Machine, steps: seq<Step>): Machine
    decreases |steps|
  {
    if steps == [] then m else TakeAll(Take(m, steps[0]), steps[1..])
  }

  // ----- Conservation -----

  function Held(c: Context): nat {
    c.fork + c.exec + c.state + c.expansion
  }

  /** Some live context. */
  ghost function Pick(contexts: map<Pid, Context>): (pid: Pid)
    requires contexts != map[]
    ensures pid in contexts
  {
    assert exists pid :: pid in contexts by { assert (forall pid :: pid !in contexts) ==> contexts == map[]; }
    var pid :| pid in contexts;
    pid
  }

  /** The sum of the reservations of all live contexts. */
  ghost function Total(contexts: map<Pid, Context>): nat
    decreases |contexts|
  {
    if contexts == map[] then 0
    else
      var pid := Pick(contexts);
      assert |contexts - {pid}| < |contexts| by { MapRemoved(contexts, pid); }
      Held(contexts[pid]) + Total(contexts - {pid})
  }

  /** The memory in use that no context accounts for. */
  ghost function Slack(m: Machine): int {
    m.resources.memory - Total(m.contexts)
  }

  /** The contexts' reservations are part of the memory in use, which is within its limit. */
  ghost predicate Solvent(m: Machine) {
    Slack(m) >= 0 && m.resources.memory <= m.resources.memoryLimit <= U64_MAX
  }

  lemma {:induction false} TotalOf(contexts: map<Pid, Context>, pid: Pid)
    requires pid in contexts
    ensures Total(contexts) == Held(contexts[pid]) + Total(contexts - {pid})
    decreases |contexts|
  {
    var first := Pick(contexts);
    if first != pid {
      MapRemoved(contexts, first);
      MapRemoved(contexts, pid);
      TotalOf(contexts - {first}, pid);
      assert contexts - {pid} - {first} == contexts - {first} - {pid};
      TotalOf(contexts - {pid}, first);
    }
  }

  lemma TotalWith(contexts: map<Pid, Context>, pid: Pid, c: Context)
    ensures Total(contexts[pid := c]) == Held(c) + Total(contexts - {pid})
  {
    TotalOf(contexts[pid := c], pid);
    assert contexts[pid := c] - {pid} == contexts - {pid};
  }

  /** A context's reservations fit in the memory in use. */
  ghost predicate Covered(r: Resources, c: Context) {
    Held(c) <= r.memory <= r.memoryLimit <= U64_MAX
  }

  /** What a context does moves memory in use and its own reservations by the same amount. */
  ghost predicate Balanced(r: Resources, c: Context, after: (Resources, Context)) {
    && Covered(after.0, after.1) && after.0.memoryLimit == r.memoryLimit
    && after.0.memory - Held(after.1) == r.memory - Held(c)
  }

  lemma DoBalanced(r: Resources, c: Context, charge: Charge)
    requires Covered(r, c)
    ensures Balanced(r, c, Do(r, c, charge))
  {
    hide SyncState;
    SyncBalanced(r, c);
    SyncKeepsImage(r, c);
  }

  lemma SyncBalanced(r: Resources, c: Context)
    requires Covered(r, c)
    ensures Balanced(r, c, SyncState(r, c))
  {
  }

  lemma SyncKeepsImage(r: Resources, c: Context)
    ensures SyncState(r, c).1 == c.(state := SyncState(r, c).1.state)
  {
  }

  lemma {:induction false} DoAllBalanced(r: Resources, c: Context, charges: seq<Charge>)
    requires Covered(r, c)
    ensures Balanced(r, c, DoAll(r, c, charges))
    decreases |charges|
  {
    hide Do;
    if charges != [] {
      DoBalanced(r, c, charges[0]);
      var (r1, c1) := Do(r, c, charges[0]);
      DoAllBalanced(r1, c1, charges[1..]);
    }
  }

  /** Without saturation, what a context owes is what it holds. */
  lemma OwesWhatItHolds(r: Resources, c: Context)
    requires Covered(r, c)
    ensures Owed(c) == Held(c)
  {
  }

  lemma SolventCovers(m: Machine, pid: Pid)
    requires Solvent(m) && pid in m.contexts
    ensures Covered(m.resources, m.contexts[pid])
    ensures m.resources.memory - Held(m.contexts[pid]) == Slack(m) + Total(m.contexts - {pid})
  {
    TotalOf(m.contexts, pid);
  }

  lemma UpdatedConserves(m: Machine, pid: Pid, after: (Resources, Context))
    requires Solvent(m) && pid in m.contexts && Balanced(m.resources, m.contexts[pid], after)
    ensures Solvent(Machine(after.0, m.contexts[pid := after.1])) &&
            Slack(Machine(after.0, m.contexts[pid := after.1])) == Slack(m)
  {
    TotalOf(m.contexts, pid);
    TotalWith(m.contexts, pid, after.1);
  }

  lemma CreateConserves(m: Machine, parent: Pid, child: Pid, forkBytes: nat, fate: Fate)
    requires Solvent(m) && parent in m.contexts && child !in m.contexts
    ensures var (after, born) := CreateChild(m, parent, child, forkBytes, fate);
            && Solvent(after) && Slack(after) == Slack(m) && after.resources.memoryLimit == m.resources.memoryLimit
            && (if born then
                  && child in after.contexts && after.contexts - {child} == m.contexts
                  && after.resources.memory == m.resources.memory + forkBytes + 256
                else after.contexts == m.contexts && after.resources.memory == m.resources.memory)
  {
    var c := Newborn(forkBytes + 256, m.contexts[parent].stateBytes);
    TotalWith(m.contexts, child, c);
    assert m.contexts - {child} == m.contexts;
    assert m.contexts[child := c] - {child} == m.contexts;
  }

  lemma EndConserves(m: Machine, pid: Pid)
    requires Solvent(m)
    ensures Solvent(End(m, pid)) && Slack(End(m, pid)) == Slack(m)
  {
    if pid in m.contexts {
      SolventCovers(m, pid);
      OwesWhatItHolds(m.resources, m.contexts[pid]);
    }
  }

  /** Memory reserved on the side, given back later, is slack in between. */
  lemma SideReserve(m: Machine, bytes: nat)
    requires Solvent(m)
    ensures var (r, ok) := Reserve(m.resources, bytes);
            && Solvent(m.(resources := r)) && r.memoryLimit == m.resources.memoryLimit
            && Slack(m.(resources := r)) == Slack(m) + if ok then bytes else 0
  {
  }

  lemma SideRelease(m: Machine, bytes: nat)
    requires Solvent(m) && bytes <= Slack(m)
    ensures Solvent(m.(resources := Release(m.resources, bytes))) &&
            Slack(m.(resources := Release(m.resources, bytes))) == Slack(m) - bytes
  {
  }

  lemma CpuOnly(m: Machine, units: nat)
    requires Solvent(m)
    ensures Solvent(m.(resources := ChargeCpu(m.resources, units).0)) &&
            Slack(m.(resources := ChargeCpu(m.resources, units).0)) == Slack(m)
    ensures ChargeCpu(m.resources, units).0.memoryLimit == m.resources.memoryLimit &&
            ChargeCpu(m.resources, units).0.memory == m.resources.memory
  {
  }

  /** A newborn child takes over launch memory that was reserved on the side. */
  lemma LaunchTaken(m: Machine, child: Pid, launch: nat)
    requires Solvent(m) && child in m.contexts && launch <= Slack(m)
    ensures var v := m.(contexts := m.contexts[child := m.contexts[child].(fork := m.contexts[child].fork + launch)]);
            Solvent(v) && Slack(v) == Slack(m) - launch
  {
    TotalOf(m.contexts, child);
    TotalWith(m.contexts, child, m.contexts[child].(fork := m.contexts[child].fork + launch));
  }

  /** A born child with its launch memory, set up and then kept or ended, with the snapshot given back. */
  function Launched(m: Machine, child: Pid, launch: nat, snapshot: nat, setup: seq<Charge>, ready: bool): Machine
    requires child in m.contexts
  {
    var (r, c) := DoAll(m.resources, m.contexts[child].(fork := m.contexts[child].fork + launch), setup);
    var m1 := Machine(r, m.contexts[child := c]);
    var m2 := if ready then m1 else End(m1, child);
    m2.(resources := Release(m2.resources, snapshot))
  }

  lemma LaunchConserves(m: Machine, child: Pid, launch: nat, snapshot: nat, setup: seq<Charge>, ready: bool)
    requires Solvent(m) && child in m.contexts && launch + snapshot <= Slack(m)
    ensures var after := Launched(m, child, launch, snapshot, setup, ready);
            && Solvent(after) && Slack(after) == Slack(m) - launch - snapshot
            && (!ready ==> after.contexts == m.contexts - {child})
  {
    hide Solvent, Slack, DoAll, End, Release;
    var v := m.(contexts := m.contexts[child := m.contexts[child].(fork := m.contexts[child].fork + launch)]);
    LaunchTaken(m, child, launch);
    SolventCovers(v, child);
    DoAllBalanced(v.resources, v.contexts[child], setup);
    var after := DoAll(v.resources, v.contexts[child], setup);
    UpdatedConserves(v, child, after);
    var m1 := Machine(after.0, v.contexts[child := after.1]);
    assert m1.contexts == m.contexts[child := after.1];
    EndConserves(m1, child);
    EndRemoves(m1, child);
    assert m1.contexts - {child} == m.contexts - {child};
    var m2 := if ready then m1 else End(m1, child);
    SideRelease(m2, snapshot);
  }

  lemma EndRemoves(m: Machine, pid: Pid)
    requires pid in m.contexts
    ensures End(m, pid).contexts == m.contexts - {pid}
  {
  }

  /** A spawn conserves; one that fails, at whatever stage, leaves contexts and memory in use exactly as
      they were. */
  lemma SpawnConserves(m: Machine, parent: Pid, child: Pid, forkBytes: nat, launch: nat, snapshot: nat, work: nat,
                       fate: Fate, setup: seq<Charge>, ready: bool)
    requires Solvent(m) && parent in m.contexts && child !in m.contexts
    ensures var (after, ok) := SpawnPosix(m, parent, child, forkBytes, launch, snapshot, work, fate, setup, ready);
            && Solvent(after) && Slack(after) == Slack(m)
            && (!ok ==> after.contexts == m.contexts && after.resources.memory == m.resources.memory)
  {
    hide Solvent, Slack, DoAll, End, Release, Reserve, ChargeCpu, CreateChild;
    var held := Sat(snapshot + launch);
    SideReserve(m, held);
    var (r, ok) := Reserve(m.resources, held);
    if ok {
      ReserveAdds(m.resources, held);
      var m0 := m.(resources := r);
      CpuOnly(m0, work);
      var (r1, ran) := ChargeCpu(r, work);
      var m1 := m.(resources := r1);
      if ran {
        CreateConserves(m1, parent, child, forkBytes, fate);
        var (m2, born) := CreateChild(m1, parent, child, forkBytes, fate);
        if born {
          BornFits(m, held, m2, snapshot + launch);
          LaunchConserves(m2, child, launch, snapshot, setup, ready);
          SameMemory(m, SpawnPosix(m, parent, child, forkBytes, launch, snapshot, work, fate, setup, ready).0);
        } else {
          SlackSide(m2, m, held);
          SideRelease(m2, held);
          ReleaseUndoes(m.resources.memory, m2.resources, held);
        }
      } else {
        SlackSide(m1, m, held);
        SideRelease(m1, held);
        ReleaseUndoes(m.resources.memory, r1, held);
      }
    } else {
      RefusedMemory(m.resources, held);
    }
  }

  lemma ReserveAdds(r: Resources, bytes: nat)
    ensures Reserve(r, bytes).1 ==> Reserve(r, bytes).0.memory == r.memory + bytes
  {
  }

  lemma RefusedMemory(r: Resources, bytes: nat)
    ensures !Reserve(r, bytes).1 ==> Reserve(r, bytes).0.memory == r.memory
  {
  }

  lemma ReleaseUndoes(memory: nat, r: Resources, bytes: nat)
    requires r.memory == memory + bytes
    ensures Release(r, bytes).memory == memory
  {
  }

  lemma SlackSide(v: Machine, m: Machine, held: nat)
    requires Solvent(m) && Slack(v) == Slack(m) + held
    ensures held <= Slack(v)
  {
  }

  /** A child can only be born beside launch data whose size did not saturate. */
  lemma BornFits(m: Machine, held: nat, m2: Machine, exact: nat)
    requires Solvent(m) && Solvent(m2) && held == Sat(exact) && Slack(m2) == Slack(m) + held
    requires m2.resources.memory > held
    ensures held == exact && exact <= Slack(m2)
  {
  }

  lemma SameMemory(m: Machine, after: Machine)
    requires Slack(after) == Slack(m)
    ensures after.contexts == m.contexts ==> after.resources.memory == m.resources.memory
  {
  }

  lemma TakeConserves(m: Machine, s: Step)
    requires Solvent(m)
    ensures Solvent(Take(m, s)) && Slack(Take(m, s)) == Slack(m)
  {
    hide Solvent, Slack, Do, CreateChild, SpawnPosix, End, ChargeCpu;
    match s
    case Charges(pid, charge) =>
      if pid in m.contexts {
        SolventCovers(m, pid);
        DoBalanced(m.resources, m.contexts[pid], charge);
        UpdatedConserves(m, pid, Do(m.resources, m.contexts[pid], charge));
      }
    case Create(parent, child, forkBytes, fate) =>
      if parent in m.contexts && child !in m.contexts {
        CreateConserves(m, parent, child, forkBytes, fate);
      }
    case Spawn(parent, child, forkBytes, launch, snapshot, work, fate, setup, ready) =>
      if parent in m.contexts && child !in m.contexts {
        SpawnConserves(m, parent, child, forkBytes, launch, snapshot, work, fate, setup, ready);
      }
    case Ends(pid) => EndConserves(m, pid);
    case Works(units) => CpuOnly(m, units);
  }

  /** Over every run of forks, spawns, charges, rollbacks and exits, memory in use minus the
      reservations of live contexts stays the same, so every reservation is given back exactly once
      and saturation in a release never hides a loss. */
  lemma {:induction false} RunConserves(m: Machine, steps: seq<Step>)
    requires Solvent(m)
    ensures Solvent(TakeAll(m, steps)) && Slack(TakeAll(m, steps)) == Slack(m)
    decreases |steps|
  {
    hide Solvent, Slack, Take;
    if steps != [] {
      TakeConserves(m, steps[0]);
      RunConserves(Take(m, steps[0]), steps[1..]);
    }
  }

  /** A machine whose contexts end up holding what they held before uses exactly the memory it used. */
  lemma BackToStart(m: Machine, steps: seq<Step>)
    requires Solvent(m) && Total(TakeAll(m, steps).contexts) == Total(m.contexts)
    ensures TakeAll(m, steps).resources.memory == m.resources.memory
  {
    RunConserves(m, steps);
  }

  // ----- Stopping -----

  /** Resources that stay stopped for the same reason and use no more memory. */
  predicate StillStopped(r: Resources, after: Resources) {
    after.stop == r.stop && after.memory <= r.memory && after.cpuUsed == r.cpuUsed
  }

  lemma {:induction false} DoAllStopped(r: Resources, c: Context, charges: seq<Charge>)
    requires r.stop.Some?
    ensures StillStopped(r, DoAll(r, c, charges).0)
    decreases |charges|
  {
    if charges != [] {
      DoAllStopped(Do(r, c, charges[0]).0, Do(r, c, charges[0]).1, charges[1..]);
    }
  }

  /** A stop reason, once set, stays, and from then on memory in use only falls. */
  lemma {:induction false} StopSticks(m: Machine, steps: seq<Step>)
    requires m.resources.stop.Some?
    ensures StillStopped(m.resources, TakeAll(m, steps).resources)
    decreases |steps|
  {
    if steps != [] {
      StepStopped(m, steps[0]);
      StopSticks(Take(m, steps[0]), steps[1..]);
    }
  }

  lemma StepStopped(m: Machine, s: Step)
    requires m.resources.stop.Some?
    ensures StillStopped(m.resources, Take(m, s).resources)
  {
    if s.Charges? && s.pid in m.contexts {
      DoAllStopped(m.resources, m.contexts[s.pid], [s.charge]);
      assert [s.charge][1..] == [];
    }
  }
}
