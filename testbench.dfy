/** The simulation driver in `main`: it drives the pins of the Verilated CPU
    through reset, program load, a fixed run and a data-memory readback, one
    clock `tick` at a time, dumping every pin after each evaluation. */
module Testbench {
  import opened Isa

  /** Cycles of the run phase. */
  const RunCycles: nat := 256

  /** Cycles of the readback phase, and so the number of readouts. */
  const ReadbackCycles: nat := 16

  /** Ticks of a session with an `n`-word program: one for reset, one per
      word, then the run and the readback. */
  function SessionTicks(n: nat): nat {
    1 + n + RunCycles + ReadbackCycles
  }

  /** The pins of the CPU at one instant. */
  datatype Pins = Pins(
    clk: bool,
    rst: bool,
    serviceMode: bool,
    programMemoryRst: bool,
    programMemoryWriteEnable: bool,
    programMemoryAddress: nat,
    programMemoryDataIn: Word,
    dataMemoryAddress: nat,
    dataMemoryDataOut: Word)

  /** One dump of the trace: the pins at a time stamp. */
  datatype Sample = Sample(time: nat, pins: Pins)

  /** One line of the readback: the cycle and the data-memory output. */
  datatype Readout = Readout(cycle: nat, value: Word)

  /** The pins the driver sets other than the clock: the clock and the
      output are blanked. */
  function Inputs(p: Pins): Pins {
    p.(clk := false, dataMemoryDataOut := 0)
  }

  /** The Verilated CPU: its pins are fields; what `eval` computes from them
      is not part of this model. */
  class Cpu {
    var clk: bool
    var rst: bool
    var serviceMode: bool
    var programMemoryRst: bool
    var programMemoryWriteEnable: bool
    var programMemoryAddress: nat
    var programMemoryDataIn: Word
    var dataMemoryAddress: nat
    var dataMemoryDataOut: Word

    /** A new CPU, its pins at whatever values they power up with. */
    constructor () {
    }

    function Snapshot(): Pins
      reads this
    {
      Pins(clk, rst, serviceMode, programMemoryRst, programMemoryWriteEnable,
           programMemoryAddress, programMemoryDataIn, dataMemoryAddress, dataMemoryDataOut)
    }

    /** Settles the hardware: the output may take any value, every input
        keeps the one the driver gave it. */
    method Eval()
      modifies this
      ensures Snapshot() == old(Snapshot()).(dataMemoryDataOut := dataMemoryDataOut)
    {
      var settled: Word :| true;
      dataMemoryDataOut := settled;
    }
  }

  /** The two dumps of one tick at time `t`: clock high then low, both with
      the inputs of `driven`. */
  predicate TickSamples(high: Sample, low: Sample, t: nat, driven: Pins) {
    high.time == t && low.time == t + 1 &&
    high.pins.clk && !low.pins.clk &&
    Inputs(high.pins) == Inputs(driven) && Inputs(low.pins) == Inputs(driven)
  }

  /** Tick `k` of a phase whose dumps start at index `b` and time `t`. */
  predicate TickAt(tr: seq<Sample>, b: nat, k: nat, t: nat, driven: Pins) {
    b + 2 * k + 1 < |tr| && TickSamples(tr[b + 2 * k], tr[b + 2 * k + 1], t + 2 * k, driven)
  }

  /** Readout `c` of a readback whose dumps start at `b` and whose readouts
      start at `r`: cycle `c` and the output left by the tick's last dump. */
  predicate ReadAt(tr: seq<Sample>, b: nat, rb: seq<Readout>, r: nat, c: nat) {
    b + 2 * c + 1 < |tr| && r + c < |rb| &&
    rb[r + c] == Readout(c, tr[b + 2 * c + 1].pins.dataMemoryDataOut)
  }

  /** Inputs during the reset tick. */
  function Resetting(p: Pins): Pins {
    p.(rst := true, serviceMode := true, programMemoryRst := true, programMemoryWriteEnable := false)
  }

  /** Inputs once reset is released. */
  function AfterReset(p: Pins): Pins {
    Resetting(p).(rst := false, programMemoryRst := false)
  }

  /** Inputs while word `w` is written at address `a`. */
  function Loading(p: Pins, a: nat, w: Word): Pins {
    p.(programMemoryAddress := a, programMemoryDataIn := w, programMemoryWriteEnable := true)
  }

  /** Inputs once the whole program is written: the last address and word
      stay on the pins, write-enable is dropped. */
  function AfterLoad(p: Pins, program: seq<Word>): Pins {
    if program == [] then p.(programMemoryWriteEnable := false)
    else Loading(p, |program| - 1, program[|program| - 1]).(programMemoryWriteEnable := false)
  }

  /** Inputs while the CPU runs. */
  function Running(p: Pins): Pins {
    p.(serviceMode := false)
  }

  /** Inputs during readback tick `c`: the address is the one the previous
      iteration set, the power-up one for the first. */
  function Reading(p: Pins, c: nat): Pins {
    p.(serviceMode := true, dataMemoryAddress := if c == 0 then p.dataMemoryAddress else c - 1)
  }

  /** A longer trace keeps the ticks of its prefix. */
  lemma TickAtExtends(tr: seq<Sample>, ext: seq<Sample>, b: nat, k: nat, t: nat, driven: Pins)
    requires TickAt(tr, b, k, t, driven)
    requires |tr| <= |ext| && ext[..|tr|] == tr
    ensures TickAt(ext, b, k, t, driven)
  {
    assert ext[b + 2 * k] == tr[b + 2 * k] && ext[b + 2 * k + 1] == tr[b + 2 * k + 1];
  }

  /** A longer trace and a longer readback keep the readouts of their prefixes. */
  lemma ReadAtExtends(tr: seq<Sample>, ext: seq<Sample>, b: nat, rb: seq<Readout>, rext: seq<Readout>, r: nat, c: nat)
    requires ReadAt(tr, b, rb, r, c)
    requires |tr| <= |ext| && ext[..|tr|] == tr
    requires |rb| <= |rext| && rext[..|rb|] == rb
    ensures ReadAt(ext, b, rext, r, c)
  {
    assert ext[b + 2 * c + 1] == tr[b + 2 * c + 1] && rext[r + c] == rb[r + c];
  }

  /** The first `n` ticks of a load from index `b` and time `t`: tick `a`
      writes `program[a]` at address `a`. */
  predicate LoadTicks(tr: seq<Sample>, b: nat, t: nat, p: Pins, program: seq<Word>, n: nat)
    requires n <= |program|
  {
    forall a :: 0 <= a < n ==> TickAt(tr, b, a, t, Loading(p, a, program[a]))
  }

  /** The first `n` ticks of a run from index `b` and time `t`. */
  predicate RunTicks(tr: seq<Sample>, b: nat, t: nat, p: Pins, n: nat) {
    forall c :: 0 <= c < n ==> TickAt(tr, b, c, t, Running(p))
  }

  /** The first `n` ticks of a readback from index `b` and time `t`, and the
      readouts they leave from index `r`. */
  predicate ReadbackTicks(tr: seq<Sample>, b: nat, t: nat, p: Pins, rb: seq<Readout>, r: nat, n: nat) {
    forall c :: 0 <= c < n ==> TickAt(tr, b, c, t, Reading(p, c)) && ReadAt(tr, b, rb, r, c)
  }

  /** Bring-up from index `b`, time `t` and power-up inputs `p`: the reset
      tick, then one load tick per word. */
  predicate BringUpTicks(tr: seq<Sample>, b: nat, t: nat, p: Pins, program: seq<Word>) {
    TickAt(tr, b, 0, t, Resetting(p)) &&
    LoadTicks(tr, b + 2, t + 2, Inputs(AfterReset(p)), program, |program|)
  }

  /** Execution from index `b`, time `t` and inputs `p`: the run, then the
      readback and the readouts it leaves from index `r`. */
  predicate ExecutionTicks(tr: seq<Sample>, b: nat, t: nat, p: Pins, rb: seq<Readout>, r: nat) {
    RunTicks(tr, b, t, p, RunCycles) &&
    ReadbackTicks(tr, b + 2 * RunCycles, t + 2 * RunCycles, Inputs(Running(p)), rb, r, ReadbackCycles)
  }

  /** A whole session from index `b`, time `t` and power-up inputs `p`. */
  predicate SessionTicksFrom(tr: seq<Sample>, b: nat, t: nat, p: Pins, program: seq<Word>, rb: seq<Readout>, r: nat) {
    BringUpTicks(tr, b, t, p, program) &&
    ExecutionTicks(tr, RunStart(b, program), t + 2 + 2 * |program|,
                   Inputs(AfterLoad(Inputs(AfterReset(p)), program)), rb, r)
  }

  /** A longer trace keeps the bring-up of its prefix. */
  lemma BringUpTicksExtend(tr: seq<Sample>, ext: seq<Sample>, b: nat, t: nat, p: Pins, program: seq<Word>)
    requires BringUpTicks(tr, b, t, p, program)
    requires |tr| <= |ext| && ext[..|tr|] == tr
    ensures BringUpTicks(ext, b, t, p, program)
  {
    TickAtExtends(tr, ext, b, 0, t, Resetting(p));
    LoadTicksExtend(tr, ext, b + 2, t + 2, Inputs(AfterReset(p)), program, |program|);
  }

  /** A tick stated from its own position is tick `k` of a phase starting
      `k` ticks earlier, with any pins that drive the same inputs. */
  lemma TickAtRebase(tr: seq<Sample>, b: nat, k: nat, t: nat, d: Pins, d': Pins)
    requires TickAt(tr, b + 2 * k, 0, t + 2 * k, d) && Inputs(d) == Inputs(d')
    ensures TickAt(tr, b, k, t, d')
  {
  }

  /** A longer trace keeps the load ticks of its prefix. */
  lemma LoadTicksExtend(tr: seq<Sample>, ext: seq<Sample>, b: nat, t: nat, p: Pins, program: seq<Word>, n: nat)
    requires n <= |program| && LoadTicks(tr, b, t, p, program, n)
    requires |tr| <= |ext| && ext[..|tr|] == tr
    ensures LoadTicks(ext, b, t, p, program, n)
  {
    forall a | 0 <= a < n
      ensures TickAt(ext, b, a, t, Loading(p, a, program[a]))
    {
      TickAtExtends(tr, ext, b, a, t, Loading(p, a, program[a]));
    }
  }

  /** A longer trace keeps the run ticks of its prefix. */
  lemma RunTicksExtend(tr: seq<Sample>, ext: seq<Sample>, b: nat, t: nat, p: Pins, n: nat)
    requires RunTicks(tr, b, t, p, n)
    requires |tr| <= |ext| && ext[..|tr|] == tr
    ensures RunTicks(ext, b, t, p, n)
  {
    forall c | 0 <= c < n
      ensures TickAt(ext, b, c, t, Running(p))
    {
      TickAtExtends(tr, ext, b, c, t, Running(p));
    }
  }

  /** A load that has written `n` words and then writes one more. */
  lemma LoadTicksGrow(tr: seq<Sample>, ext: seq<Sample>, b: nat, t: nat, p: Pins, program: seq<Word>, n: nat)
    requires n < |program| && LoadTicks(tr, b, t, p, program, n)
    requires |tr| <= |ext| && ext[..|tr|] == tr
    requires TickAt(ext, b, n, t, Loading(p, n, program[n]))
    ensures LoadTicks(ext, b, t, p, program, n + 1)
  {
    LoadTicksExtend(tr, ext, b, t, p, program, n);
  }

  /** A run that has ticked `n` times and then ticks once more. */
  lemma RunTicksGrow(tr: seq<Sample>, ext: seq<Sample>, b: nat, t: nat, p: Pins, n: nat)
    requires RunTicks(tr, b, t, p, n)
    requires |tr| <= |ext| && ext[..|tr|] == tr
    requires TickAt(ext, b, n, t, Running(p))
    ensures RunTicks(ext, b, t, p, n + 1)
  {
    RunTicksExtend(tr, ext, b, t, p, n);
  }

  /** A readback that has read `n` cycles and then reads one more. */
  lemma ReadbackTicksGrow(tr: seq<Sample>, ext: seq<Sample>, b: nat, t: nat, p: Pins,
                          rb: seq<Readout>, rext: seq<Readout>, r: nat, n: nat)
    requires ReadbackTicks(tr, b, t, p, rb, r, n)
    requires |tr| <= |ext| && ext[..|tr|] == tr
    requires |rb| <= |rext| && rext[..|rb|] == rb
    requires TickAt(ext, b, n, t, Reading(p, n)) && ReadAt(ext, b, rext, r, n)
    ensures ReadbackTicks(ext, b, t, p, rext, r, n + 1)
  {
    forall c | 0 <= c < n
      ensures TickAt(ext, b, c, t, Reading(p, c)) && ReadAt(ext, b, rext, r, c)
    {
      TickAtExtends(tr, ext, b, c, t, Reading(p, c));
      ReadAtExtends(tr, ext, b, rb, rext, r, c);
    }
  }

  /** Where the dumps of each phase start, in a session whose dumps start at
      `b`: after the reset tick, after the load, after the run. */
  function LoadStart(b: nat): nat { b + 2 }
  function RunStart(b: nat, program: seq<Word>): nat { b + 2 + 2 * |program| }
  function ReadStart(b: nat, program: seq<Word>): nat { RunStart(b, program) + 2 * RunCycles }

  /** The pins dumped on the falling edge of tick `k` of a phase whose dumps
      start at index `b`. */
  function FallingEdge(tr: seq<Sample>, b: nat, k: nat): Pins
    requires b + 2 * k + 1 < |tr|
  {
    tr[b + 2 * k + 1].pins
  }

  /** The pins dumped on the rising edge of tick `k` of a phase whose dumps
      start at index `b`. */
  function RisingEdge(tr: seq<Sample>, b: nat, k: nat): Pins
    requires b + 2 * k < |tr|
  {
    tr[b + 2 * k].pins
  }

  /** What a session means on the pins: during the load, tick `a` raises the
      clock with write-enable set, address `a` and word `program[a]`, in
      service mode and out of reset; during the run, write-enable and service
      mode are low; readback tick `c` shows the address set after tick
      `c - 1`, and readout `c` is cycle `c` with the output of that tick. */
  lemma {:induction false} SessionOnPins(tr: seq<Sample>, b: nat, t: nat, p: Pins, program: seq<Word>, rb: seq<Readout>, r: nat)
    requires SessionTicksFrom(tr, b, t, p, program, rb, r)
    ensures b + 2 * SessionTicks(|program|) <= |tr| && r + ReadbackCycles <= |rb|
    ensures forall a :: 0 <= a < |program| ==>
      var s := RisingEdge(tr, LoadStart(b), a);
      s.clk && s.programMemoryWriteEnable && s.programMemoryAddress == a && s.programMemoryDataIn == program[a] &&
      s.serviceMode && !s.rst && !s.programMemoryRst
    ensures forall c :: 0 <= c < RunCycles ==>
      var s := RisingEdge(tr, RunStart(b, program), c);
      s.clk && !s.programMemoryWriteEnable && !s.serviceMode && !s.rst
    ensures forall c :: 0 <= c < ReadbackCycles ==>
      var s := RisingEdge(tr, ReadStart(b, program), c);
      s.clk && s.serviceMode && !s.programMemoryWriteEnable &&
      (c > 0 ==> s.dataMemoryAddress == c - 1) &&
      rb[r + c] == Readout(c, FallingEdge(tr, ReadStart(b, program), c).dataMemoryDataOut)
  {
    var up := Inputs(AfterReset(p));
    var loaded := Inputs(AfterLoad(up, program));
    var run, read := RunStart(b, program), ReadStart(b, program);
    assert TickAt(tr, read, ReadbackCycles - 1, t + (read - b), Reading(Inputs(Running(loaded)), ReadbackCycles - 1));
    assert ReadAt(tr, read, rb, r, ReadbackCycles - 1);
    forall a | 0 <= a < |program|
      ensures var s := RisingEdge(tr, LoadStart(b), a);
        s.clk && s.programMemoryWriteEnable && s.programMemoryAddress == a && s.programMemoryDataIn == program[a] &&
        s.serviceMode && !s.rst && !s.programMemoryRst
    {
      assert TickAt(tr, LoadStart(b), a, t + 2, Loading(up, a, program[a]));
    }
    forall c | 0 <= c < RunCycles
      ensures var s := RisingEdge(tr, run, c);
        s.clk && !s.programMemoryWriteEnable && !s.serviceMode && !s.rst
    {
      assert TickAt(tr, run, c, t + (run - b), Running(loaded));
    }
    forall c | 0 <= c < ReadbackCycles
      ensures var s := RisingEdge(tr, read, c);
        s.clk && s.serviceMode && !s.programMemoryWriteEnable &&
        (c > 0 ==> s.dataMemoryAddress == c - 1) &&
        rb[r + c] == Readout(c, FallingEdge(tr, read, c).dataMemoryDataOut)
    {
      assert TickAt(tr, read, c, t + (read - b), Reading(Inputs(Running(loaded)), c));
      assert ReadAt(tr, read, rb, r, c);
    }
  }

  /** The driver: the CPU, the time counter, the trace handle and what it
      has dumped, and the readout lines. */
  class Testbench {
    const top: Cpu
    /** Whether a trace file is open (`tfp` is not null). */
    const tracing: bool
    var mainTime: nat
    var trace: seq<Sample>
    var readback: seq<Readout>

    /** Every dump is stamped with its own position, and while tracing the
        time counter is the number of dumps. */
    predicate Valid()
      reads this
    {
      (tracing ==> mainTime == |trace|) &&
      forall i :: 0 <= i < |trace| ==> trace[i].time == i
    }

    constructor (tracing: bool)
      ensures Valid() && this.tracing == tracing && fresh(top)
      ensures mainTime == 0 && trace == [] && readback == []
    {
      top := new Cpu();
      this.tracing := tracing;
      mainTime := 0;
      trace := [];
      readback := [];
    }

    /** `tick`: clock high, evaluate, dump; clock low, evaluate, dump; the
        time advances once per evaluation. */
    method Tick()
      requires Valid()
      modifies this, top
      ensures Valid()
      ensures mainTime == old(mainTime) + 2 && readback == old(readback)
      ensures !top.clk && Inputs(top.Snapshot()) == Inputs(old(top.Snapshot()))
      ensures |trace| == |old(trace)| + (if tracing then 2 else 0) && trace[..|old(trace)|] == old(trace)
      ensures tracing ==> TickAt(trace, |old(trace)|, 0, old(mainTime), old(top.Snapshot()))
      ensures tracing ==> trace[|trace| - 1].pins == top.Snapshot()
    {
      Edge(true);
      Edge(false);
    }

    /** One half of a tick: the clock at `level`, evaluate, dump if tracing,
        advance the time. */
    method Edge(level: bool)
      requires Valid()
      modifies this, top
      ensures Valid()
      ensures mainTime == old(mainTime) + 1 && readback == old(readback)
      ensures top.Snapshot() == old(top.Snapshot()).(clk := level, dataMemoryDataOut := top.dataMemoryDataOut)
      ensures trace == old(trace) + (if tracing then [Sample(old(mainTime), top.Snapshot())] else [])
    {
      top.clk := level;
      top.Eval();
      if tracing {
        trace := trace + [Sample(mainTime, top.Snapshot())];
      }
      mainTime := mainTime + 1;
    }

    /** Reset: reset and program-memory reset high, service mode on, writes
        off, one tick; then both resets released. */
    method Reset()
      requires tracing && Valid()
      modifies this, top
      ensures Valid()
      ensures mainTime == old(mainTime) + 2 && readback == old(readback)
      ensures |trace| == |old(trace)| + 2 && trace[..|old(trace)|] == old(trace)
      ensures TickAt(trace, |old(trace)|, 0, old(mainTime), Resetting(old(top.Snapshot())))
      ensures Inputs(top.Snapshot()) == Inputs(AfterReset(old(top.Snapshot())))
    {
      top.rst := true;
      top.serviceMode := true;
      top.programMemoryRst := true;
      top.programMemoryWriteEnable := false;
      Tick();
      top.rst := false;
      top.programMemoryRst := false;
    }

    /** Load: for each address in turn, address, word and write-enable on
        the pins and one tick; write-enable dropped at the end. */
    method Load(program: seq<Word>)
      requires tracing && Valid()
      modifies this, top
      ensures Valid()
      ensures mainTime == old(mainTime) + 2 * |program| && readback == old(readback)
      ensures |trace| == |old(trace)| + 2 * |program| && trace[..|old(trace)|] == old(trace)
      ensures LoadTicks(trace, |old(trace)|, old(mainTime), Inputs(old(top.Snapshot())), program, |program|)
      ensures Inputs(top.Snapshot()) == Inputs(AfterLoad(Inputs(old(top.Snapshot())), program))
    {
      ghost var p0, n0, tr0 := Inputs(top.Snapshot()), |trace|, trace;
      for a := 0 to |program|
        invariant Valid()
        invariant mainTime == old(mainTime) + 2 * a && readback == old(readback)
        invariant |trace| == n0 + 2 * a && trace[..n0] == tr0
        invariant LoadTicks(trace, n0, old(mainTime), p0, program, a)
        invariant a == 0 ==> Inputs(top.Snapshot()) == Inputs(p0)
        invariant a > 0 ==> Inputs(top.Snapshot()) == Inputs(Loading(p0, a - 1, program[a - 1]))
      {
        ghost var before, driven := trace, Loading(top.Snapshot(), a, program[a]);
        WriteWord(a, program[a]);
        TickAtRebase(trace, n0, a, old(mainTime), driven, Loading(p0, a, program[a]));
        LoadTicksGrow(before, trace, n0, old(mainTime), p0, program, a);
        assert trace[..n0] == before[..n0];
      }
      top.programMemoryWriteEnable := false;
    }

    /** The four phases of `main` one after the other, on a trace that is
        open. */
    method Session(program: seq<Word>)
      requires tracing && Valid()
      modifies this, top
      ensures Valid()
      ensures mainTime == old(mainTime) + 2 * SessionTicks(|program|)
      ensures |trace| == |old(trace)| + 2 * SessionTicks(|program|) && trace[..|old(trace)|] == old(trace)
      ensures |readback| == |old(readback)| + ReadbackCycles && readback[..|old(readback)|] == old(readback)
      ensures SessionTicksFrom(trace, |old(trace)|, old(mainTime), old(top.Snapshot()), program, readback, |old(readback)|)
    {
      ghost var p0, n0, t0 := top.Snapshot(), |trace|, mainTime;
      BringUp(program);
      ghost var tr1 := trace;
      Execute();
      BringUpTicksExtend(tr1, trace, n0, t0, p0, program);
    }

    /** Reset, then load. */
    method BringUp(program: seq<Word>)
      requires tracing && Valid()
      modifies this, top
      ensures Valid()
      ensures mainTime == old(mainTime) + 2 + 2 * |program| && readback == old(readback)
      ensures |trace| == |old(trace)| + 2 + 2 * |program| && trace[..|old(trace)|] == old(trace)
      ensures BringUpTicks(trace, |old(trace)|, old(mainTime), old(top.Snapshot()), program)
      ensures Inputs(top.Snapshot()) == Inputs(AfterLoad(Inputs(AfterReset(old(top.Snapshot()))), program))
    {
      ghost var p0, n0, t0 := top.Snapshot(), |trace|, mainTime;
      Reset();
      ghost var tr1 := trace;
      Load(program);
      TickAtExtends(tr1, trace, n0, 0, t0, Resetting(p0));
    }

    /** Run, then read back. */
    method Execute()
      requires tracing && Valid()
      modifies this, top
      ensures Valid()
      ensures mainTime == old(mainTime) + 2 * (RunCycles + ReadbackCycles)
      ensures |trace| == |old(trace)| + 2 * (RunCycles + ReadbackCycles) && trace[..|old(trace)|] == old(trace)
      ensures |readback| == |old(readback)| + ReadbackCycles && readback[..|old(readback)|] == old(readback)
      ensures ExecutionTicks(trace, |old(trace)|, old(mainTime), Inputs(old(top.Snapshot())), readback, |old(readback)|)
    {
      ghost var p0, n0, t0 := Inputs(top.Snapshot()), |trace|, mainTime;
      Run();
      ghost var tr1 := trace;
      Readback();
      RunTicksExtend(tr1, trace, n0, t0, p0, RunCycles);
    }

    /** One iteration of the load: address, word and write-enable on the
        pins, then one tick. */
    method WriteWord(a: nat, w: Word)
      requires tracing && Valid()
      modifies this, top
      ensures Valid()
      ensures mainTime == old(mainTime) + 2 && readback == old(readback)
      ensures |trace| == |old(trace)| + 2 && trace[..|old(trace)|] == old(trace)
      ensures TickAt(trace, |old(trace)|, 0, old(mainTime), Loading(old(top.Snapshot()), a, w))
      ensures Inputs(top.Snapshot()) == Inputs(Loading(old(top.Snapshot()), a, w))
    {
      top.programMemoryAddress := a;
      top.programMemoryDataIn := w;
      top.programMemoryWriteEnable := true;
      Tick();
    }

    /** Run: service mode off, then `RunCycles` ticks with nothing else
        touched. */
    method Run()
      requires tracing && Valid()
      modifies this, top
      ensures Valid()
      ensures mainTime == old(mainTime) + 2 * RunCycles && readback == old(readback)
      ensures |trace| == |old(trace)| + 2 * RunCycles && trace[..|old(trace)|] == old(trace)
      ensures RunTicks(trace, |old(trace)|, old(mainTime), Inputs(old(top.Snapshot())), RunCycles)
      ensures Inputs(top.Snapshot()) == Inputs(Running(Inputs(old(top.Snapshot()))))
    {
      ghost var p0, n0, tr0 := Inputs(top.Snapshot()), |trace|, trace;
      top.serviceMode := false;
      for c := 0 to RunCycles
        invariant Valid()
        invariant mainTime == old(mainTime) + 2 * c && readback == old(readback)
        invariant |trace| == n0 + 2 * c && trace[..n0] == tr0
        invariant RunTicks(trace, n0, old(mainTime), p0, c)
        invariant Inputs(top.Snapshot()) == Inputs(Running(p0))
      {
        ghost var before := trace;
        ghost var driven := top.Snapshot();
        Tick();
        TickAtRebase(trace, n0, c, old(mainTime), driven, Running(p0));
        RunTicksGrow(before, trace, n0, old(mainTime), p0, c);
        assert trace[..n0] == before[..n0];
      }
    }

    /** Readback: service mode on; each cycle ticks, then puts the cycle on
        the data-memory address and reads the output, so readout `c` shows
        what the tick's evaluation made of address `c - 1`. */
    method Readback()
      requires tracing && Valid()
      modifies this, top
      ensures Valid()
      ensures mainTime == old(mainTime) + 2 * ReadbackCycles
      ensures |trace| == |old(trace)| + 2 * ReadbackCycles && trace[..|old(trace)|] == old(trace)
      ensures |readback| == |old(readback)| + ReadbackCycles && readback[..|old(readback)|] == old(readback)
      ensures ReadbackTicks(trace, |old(trace)|, old(mainTime), Inputs(old(top.Snapshot())), readback, |old(readback)|, ReadbackCycles)
      ensures Inputs(top.Snapshot()) == Inputs(Reading(Inputs(old(top.Snapshot())), ReadbackCycles))
    {
      ghost var p0, n0, tr0, r0, rb0 := Inputs(top.Snapshot()), |trace|, trace, |readback|, readback;
      top.serviceMode := true;
      for c := 0 to ReadbackCycles
        invariant Valid()
        invariant mainTime == old(mainTime) + 2 * c
        invariant |trace| == n0 + 2 * c && trace[..n0] == tr0
        invariant |readback| == r0 + c && readback[..r0] == rb0
        invariant ReadbackTicks(trace, n0, old(mainTime), p0, readback, r0, c)
        invariant Inputs(top.Snapshot()) == Inputs(Reading(p0, c))
      {
        ghost var before, rbefore, driven := trace, readback, top.Snapshot();
        ReadCycle(c);
        TickAtRebase(trace, n0, c, old(mainTime), driven, Reading(p0, c));
        ReadbackTicksGrow(before, trace, n0, old(mainTime), p0, rbefore, readback, r0, c);
        assert trace[..n0] == before[..n0];
        assert readback[..r0] == rbefore[..r0];
      }
    }

    /** One iteration of the readback: a tick, then cycle `c` on the
        data-memory address and the output read as readout `c`. */
    method ReadCycle(c: nat)
      requires tracing && Valid()
      modifies this, top
      ensures Valid()
      ensures mainTime == old(mainTime) + 2
      ensures |trace| == |old(trace)| + 2 && trace[..|old(trace)|] == old(trace)
      ensures readback == old(readback) + [Readout(c, trace[|trace| - 1].pins.dataMemoryDataOut)]
      ensures TickAt(trace, |old(trace)|, 0, old(mainTime), old(top.Snapshot()))
      ensures Inputs(top.Snapshot()) == Inputs(old(top.Snapshot()).(dataMemoryAddress := c))
    {
      Tick();
      top.dataMemoryAddress := c;
      readback := readback + [Readout(c, top.dataMemoryDataOut)];
    }
  }
}
