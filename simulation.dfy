/** `main` end to end: open the CPU and its trace, assemble the program text,
    then run the session with the words that assembled. */
module Simulation {
  import opened Isa
  import opened Batch
  import opened Testbench

  /** Runs `main` on the program text `assembly`; `powerUp` is the CPU's
      pins as they came up, before the first tick. */
  method Simulate(assembly: seq<string>) returns (tb: Testbench, rejected: seq<Rejection>, powerUp: Pins)
    requires AllWellFormed(assembly)
    ensures fresh(tb) && tb.tracing && tb.Valid()
    ensures rejected == Rejections(Outcomes(assembly))
    ensures tb.mainTime == 2 * SessionTicks(|AssembleAll(assembly)|) && |tb.readback| == ReadbackCycles
    ensures SessionTicksFrom(tb.trace, 0, 0, powerUp, AssembleAll(assembly), tb.readback, 0)
  {
    tb := new Testbench(true);
    powerUp := tb.top.Snapshot();
    var program;
    program, rejected := AssembleProgram(assembly);
    tb.Session(program);
  }
}
