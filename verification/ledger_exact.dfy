// What every charge takes and when it is refused. Conservation alone would also hold of a ledger that
// never reserved anything.

module LedgerExact {
  import opened Basics
  import opened MemoryLedger

  /** A running machine has room for some bytes. */
  predicate Room(r: Resources, bytes: nat) {
    r.stop.None? && r.memory + bytes <= r.memoryLimit
  }

  /** Memory in use goes up by some bytes, and the peak with it. */
  ghost predicate Took(r: Resources, after: Resources, bytes: nat) {
    && after.memory == r.memory + bytes && after.peak == (if r.peak < after.memory then after.memory else r.peak)
    && after == r.(memory := after.memory, peak := after.peak)
  }

  /** A refusal stops the machine for want of memory, unless it had stopped before, and takes nothing. */
  ghost predicate Refused(r: Resources, after: Resources) {
    after == r.(stop := if r.stop.Some? then r.stop else Some(MemoryExhausted))
  }

  /** A reservation is accepted exactly when the machine runs and has room, and then taken whole. */
  lemma ReserveExactly(r: Resources, bytes: nat)
    requires r.memoryLimit <= U64_MAX
    ensures var (after, ok) := Reserve(r, bytes);
            (ok <==> Room(r, bytes)) && if ok then Took(r, after, bytes) else Refused(r, after)
  {
  }

  lemma RefusalStops(r: Resources, bytes: nat)
    ensures !Reserve(r, bytes).1 ==> Reserve(r, bytes).0.stop.Some?
  {
  }

  /** Work is accepted exactly when the machine runs and the work left covers it; a refusal uses up what is
      left and stops the machine. */
  lemma ChargeCpuExactly(r: Resources, units: nat)
    requires r.cpuLimit <= U64_MAX
    ensures var (after, ok) := ChargeCpu(r, units);
            && (ok <==> r.stop.None? && r.cpuUsed + units <= r.cpuLimit)
            && (ok ==> after == r.(cpuUsed := r.cpuUsed + units))
            && (!ok ==> after == if r.stop.Some? then r else r.(cpuUsed := r.cpuLimit, stop := Some(CpuExhausted)))
  {
  }

  /** Output is accepted exactly when the machine runs and the output left covers it; a refusal uses up what is left
      and stops the machine. */
  lemma ChargeOutputExactly(r: Resources, bytes: nat)
    requires r.output <= r.outputLimit <= U64_MAX
    ensures var (after, ok) := ChargeOutput(r, bytes);
            && (ok <==> r.stop.None? && bytes <= OutputRemaining(r))
            && (ok ==> after == r.(output := r.output + bytes) && OutputRemaining(after) == OutputRemaining(r) - bytes)
            && (!ok && r.stop.None? ==> after.stop == Some(OutputLimitExceeded) && after.memory == r.memory)
  {
  }

  /** Work done in a run is charged to the machine and changes no context. */
  lemma WorkExactly(m: Machine, units: nat)
    requires m.resources.cpuLimit <= U64_MAX
    ensures var after := Take(m, Works(units));
            && after.contexts == m.contexts && after.resources.memory == m.resources.memory
            && after.resources.cpuUsed ==
               (if m.resources.stop.Some? then m.resources.cpuUsed
                else if m.resources.cpuUsed + units <= m.resources.cpuLimit then m.resources.cpuUsed + units
                else m.resources.cpuLimit)
  {
  }

  /** An expansion charge is accepted exactly when the machine runs and has room; then memory in use and the
      context's expansion both grow by exactly the bytes, otherwise neither changes. An interrupted one does
      nothing. */
  lemma ExpandExactly(r: Resources, c: Context, bytes: nat)
    requires Covered(r, c)
    ensures var (after, d) := Do(r, c, Expand(bytes, false));
            if Room(r, bytes) then Took(r, after, bytes) && d == c.(expansion := c.expansion + bytes)
            else Refused(r, after) && d == c
    ensures Do(r, c, Expand(bytes, true)) == (r, c)
  {
  }

  /** The end of an expansion gives back exactly what it had charged. */
  lemma EndExpansionExactly(r: Resources, c: Context)
    requires Covered(r, c)
    ensures var (after, d) := Do(r, c, EndExpansion);
            after == r.(memory := r.memory - c.expansion) && d == c.(expansion := 0)
  {
  }

  /** The growth of a context's state over its baseline. */
  function Growth(c: Context): nat {
    if c.stateBytes > c.baseline then c.stateBytes - c.baseline else 0
  }

  /** A sync leaves the growth of the state reserved, no more and no less, unless there is no room for it. */
  lemma SyncExactly(r: Resources, c: Context)
    requires Covered(r, c)
    ensures var (after, d) := Do(r, c, Sync);
            if Growth(c) <= c.state then
              after == r.(memory := r.memory - (c.state - Growth(c))) && d == c.(state := Growth(c))
            else if Room(r, Growth(c) - c.state) then Took(r, after, Growth(c) - c.state) && d == c.(state := Growth(c))
            else Refused(r, after) && d == c
  {
  }

  /** When the state changes its size and is then synced, exactly its growth over the baseline is reserved, or the
      reservation stays because there was no room. */
  lemma GrowSyncs(r: Resources, c: Context, stateBytes: nat)
    requires Covered(r, c)
    ensures var (r1, grown) := Do(r, c, Grow(stateBytes));
            var (after, d) := Do(r1, grown, Sync);
            var growth := if stateBytes > c.baseline then stateBytes - c.baseline else 0;
            && r1 == r && d.stateBytes == stateBytes
            && (if growth <= c.state || Room(r, growth - c.state) then
                  d.state == growth && after.memory + c.state == r.memory + growth
                else d.state == c.state && after.memory == r.memory)
  {
    var grown := Do(r, c, Grow(stateBytes)).1;
    SyncExactly(r, grown);
  }

  /** Loading an image needs room for it beside the old one; then exactly its bytes replace the old image's
      charge. An image that cannot be loaded leaves memory in use and the charge as they were. */
  lemma LoadExactly(r: Resources, c: Context, bytes: nat, loaded: bool)
    requires Covered(r, c)
    ensures var (after, d) := Do(r, c, LoadImage(bytes, loaded));
            && (Room(r, bytes) && loaded ==> d == c.(exec := bytes) && after.memory == r.memory + bytes - c.exec)
            && (Room(r, bytes) && !loaded ==> d == c && after.memory == r.memory)
            && (Room(r, bytes) ==> after.stop == None && after.peak >= r.memory + bytes)
            && (!Room(r, bytes) ==> Refused(r, after) && d == c)
  {
  }

  /** The end of an image syncs the state and gives back exactly the image's charge. */
  lemma EndImageExactly(r: Resources, c: Context)
    requires Covered(r, c)
    ensures var (after, d) := Do(r, c, EndImage);
            if c.exec == 0 then (after, d) == (r, c)
            else
              var (synced, e) := Do(r, c, Sync);
              after == synced.(memory := synced.memory - c.exec) && d == e.(exec := 0)
  {
    if c.exec > 0 {
      SyncBalanced(r, c);
      SyncKeepsImage(r, c);
    }
  }

  /** A child is born exactly when its state is within the fork limit, there is room for it and its record,
      and nothing later refuses it. It starts with that reservation alone, measured against its parent's
      state. */
  lemma CreateExactly(m: Machine, parent: Pid, child: Pid, forkBytes: nat, fate: Fate)
    requires Solvent(m) && parent in m.contexts && child !in m.contexts
    ensures var (after, born) := CreateChild(m, parent, child, forkBytes, fate);
            && (born <==> forkBytes <= 33554432 && Room(m.resources, forkBytes + 256) && fate.Born?)
            && (born ==>
                  && Took(m.resources, after.resources, forkBytes + 256)
                  && after.contexts == m.contexts[child := after.contexts[child]]
                  && after.contexts[child].fork == forkBytes + 256 && after.contexts[child].exec == 0
                  && after.contexts[child].state == 0 && after.contexts[child].expansion == 0
                  && after.contexts[child].stateBytes == m.contexts[parent].stateBytes
                  && after.contexts[child].baseline == m.contexts[parent].stateBytes)
            && (!born ==> after.contexts == m.contexts && after.resources.memory == m.resources.memory)
  {
  }

  /** Ending a context gives back exactly its four reservations. */
  lemma EndExactly(m: Machine, pid: Pid)
    requires Solvent(m) && pid in m.contexts
    ensures var c, after := m.contexts[pid], End(m, pid);
            && after.contexts == m.contexts - {pid} && after.resources == m.resources.(memory := after.resources.memory)
            && after.resources.memory + c.fork + c.exec + c.state + c.expansion == m.resources.memory
  {
    SolventCovers(m, pid);
    OwesWhatItHolds(m.resources, m.contexts[pid]);
  }

  /** A spawn that succeeds leaves every other context as it was, and memory in use grows by exactly what the
      child holds: its fork and launch bytes and what its setup charged. */
  lemma SpawnExactly(m: Machine, parent: Pid, child: Pid, forkBytes: nat, launch: nat, snapshot: nat, work: nat,
                     fate: Fate, setup: seq<Charge>, ready: bool)
    requires Solvent(m) && parent in m.contexts && child !in m.contexts
    ensures var (after, ok) := SpawnPosix(m, parent, child, forkBytes, launch, snapshot, work, fate, setup, ready);
            && (ok ==>
                  && ready && fate.Born? && forkBytes <= 33554432
                  && child in after.contexts && after.contexts - {child} == m.contexts
                  && after.contexts[child].fork == forkBytes + 256 + launch
                  && after.resources.memory == m.resources.memory + Held(after.contexts[child]))
            && (!ok ==> after.contexts == m.contexts && after.resources.memory == m.resources.memory)
  {
    hide Solvent, Slack, DoAll, End, Release, Reserve, ChargeCpu;
    SpawnConserves(m, parent, child, forkBytes, launch, snapshot, work, fate, setup, ready);
    var (after, ok) := SpawnPosix(m, parent, child, forkBytes, launch, snapshot, work, fate, setup, ready);
    if ok {
      SpawnListed(m, parent, child, forkBytes, launch, snapshot, work, fate, setup, ready);
      OnlyGrew(m, after, child);
    }
  }

  lemma OnlyGrew(m: Machine, after: Machine, child: Pid)
    requires child in after.contexts && after.contexts - {child} == m.contexts && Slack(after) == Slack(m)
    ensures after.resources.memory == m.resources.memory + Held(after.contexts[child])
  {
    TotalOf(after.contexts, child);
  }

  lemma SpawnListed(m: Machine, parent: Pid, child: Pid, forkBytes: nat, launch: nat, snapshot: nat, work: nat,
                    fate: Fate, setup: seq<Charge>, ready: bool)
    requires parent in m.contexts && child !in m.contexts
    requires SpawnPosix(m, parent, child, forkBytes, launch, snapshot, work, fate, setup, ready).1
    ensures var after := SpawnPosix(m, parent, child, forkBytes, launch, snapshot, work, fate, setup, ready).0;
            && ready && fate.Born? && forkBytes <= MAX_FORK_STATE
            && child in after.contexts && after.contexts - {child} == m.contexts
            && after.contexts[child].fork == forkBytes + 256 + launch
  {
    hide DoAll, End, Release, Reserve, ChargeCpu;
    var r1 := ChargeCpu(Reserve(m.resources, Sat(snapshot + launch)).0, work).0;
    var (m2, born) := CreateChild(m.(resources := r1), parent, child, forkBytes, fate);
    var c := m2.contexts[child].(fork := m2.contexts[child].fork + launch);
    SetupKeepsFork(m2.resources, c, setup);
    var c3 := DoAll(m2.resources, c, setup).1;
    assert m2.contexts[child := c3] - {child} == m.contexts;
  }

  lemma {:induction false} SetupKeepsFork(r: Resources, c: Context, charges: seq<Charge>)
    ensures DoAll(r, c, charges).1.fork == c.fork
    decreases |charges|
  {
    if charges != [] {
      SetupKeepsFork(Do(r, c, charges[0]).0, Do(r, c, charges[0]).1, charges[1..]);
    }
  }
}
