// Emitting a rendered value: the bound is reserved and charged first, and what is written never
// exceeds it.

module JsonEmit {
  import opened Basics
  import opened JsonRender
  import opened JsonRead
  import opened MemoryLedger
  import M = LedgerObject

  /** The bytes emitted for a value: a raw string as it is, everything else rendered, on one line. */
  function Emitted(v: Value, raw: bool, indent: nat): seq<Byte> {
    (if raw && v.String? then v.text else Render(v, indent, 0)) + [NEWLINE]
  }

  /** A raw string is emitted byte by byte; every other value can be read back from what is emitted, with just
      the newline left over. */
  lemma EmittedExactly(v: Value, raw: bool, indent: nat)
    requires Proper(v)
    ensures var out := Emitted(v, raw, indent);
            if raw && v.String? then |out| == |v.text| + 1 && v.text <= out && out[|v.text|] == NEWLINE
            else ReadValue(out) == Some((v, [NEWLINE]))
  {
    hide Render, ReadValue;
    ReadUndoesRender(v, indent, 0, [NEWLINE]);
  }

  lemma EmittedFits(v: Value, raw: bool, indent: nat)
    requires RenderBound(v, indent, 0) < U64_MAX
    ensures |Emitted(v, raw, indent)| <= RenderBound(v, indent, 0) + 1
  {
    hide Render;
    BoundCovers(v, indent, 0);
    if raw && v.String? {
      EscapesFit(v.text);
      BoundIsExact(v, indent, 0);
    }
  }

  /** The budgets left cover a bound, in output, in memory and in work. */
  predicate Affords(r: Resources, bound: nat) {
    && r.stop.None? && bound <= OutputRemaining(r)
    && r.memory + bound <= U64_MAX && r.memory + bound <= r.memoryLimit
    && r.cpuUsed + bound <= U64_MAX && r.cpuUsed + bound <= r.cpuLimit
  }

  /** The first budget that does not cover a bound. */
  function Lacking(r: Resources, bound: nat): Stop {
    if bound > OutputRemaining(r) then OutputLimitExceeded
    else if r.memory + bound > U64_MAX || r.memory + bound > r.memoryLimit then MemoryExhausted
    else CpuExhausted
  }

  /** Emit a value exactly when the budgets cover its bound: then the bound is reserved and charged once
      and what is written stays within it. A refused value writes nothing and leaves the machine
      stopped, for the first budget that did not suffice unless it had been stopped before. */
  method Emit(meter: M.Meter, v: Value, raw: bool, indent: nat) returns (ok: bool, written: seq<Byte>)
    modifies meter
    ensures var bound := Plus(RenderBound(v, indent, 0), 1);
            var was := old(meter.View());
            && (ok <==> Affords(was, bound))
            && written == (if ok then Emitted(v, raw, indent) else [])
            && (ok && raw && v.String? ==> written == v.text + [NEWLINE])
            && (ok && !(raw && v.String?) ==> written == Render(v, indent, 0) + [NEWLINE])
            && (ok ==> meter.View() == was.(memory := was.memory + bound, peak := Max(was.peak, was.memory + bound),
                                            cpuUsed := was.cpuUsed + bound))
            && (!ok ==> meter.stop == if was.stop.Some? then was.stop else Some(Lacking(was, bound)))
    ensures ok && RenderBound(v, indent, 0) < U64_MAX ==>
              |written| <= meter.memory - old(meter.memory) <= OutputRemaining(old(meter.View()))
  {
    hide Render, RenderBound;
    ok, written := false, [];
    var bound := Plus(RenderBound(v, indent, 0), 1);
    var remaining := Sub(meter.outputLimit, meter.output);
    if bound > remaining {
      var _ := meter.ChargeOutput(MemoryLedger.Sat(remaining + 1));
      return;
    }
    var reserved := meter.Reserve(bound);
    if !reserved {
      return;
    }
    var charged := meter.Charge(bound);
    if !charged {
      return;
    }
    ok := true;
    written := Emitted(v, raw, indent);
    if RenderBound(v, indent, 0) < U64_MAX {
      EmittedFits(v, raw, indent);
    }
  }
}
