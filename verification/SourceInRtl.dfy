/** The source machine and the RTL: a path through the source is a run of the core, in cycles that the source tells. */
module SourceInRtl {
  import opened Isa
  import opened Assembler
  import opened SourceMachine
  import opened AssemblerCorrect
  import opened Rtl
  import opened Refinement
  import opened Retirement

  function MnemonicCycles(m: Mnemonic): nat {
    if m == CALLA then 5
    else if DoubleWord(m).Some? || TwoCycleSingleWord(m).Some? then 4
    else 3
  }

  /** The cycles of a path through the source, from its mnemonics alone. */
  function PathCycles(src: Source, path: seq<nat>): nat {
    if path == [] then 0
    else
      var i := path[|path| - 1];
      PathCycles(src, path[..|path| - 1])
      + if i < |src| && src[i].mnemonic.Some? then MnemonicCycles(src[i].mnemonic.value) else 0
  }

  /** The first word of a line takes the cycles of its mnemonic. */
  lemma WordCycles(line: Line, address: nat, table: Table)
    requires line.mnemonic.Some? && EncodeLine(line, address, table).Ok?
    ensures var ws := EncodeLine(line, address, table).value;
            ws != [] && CyclesOf(ws[0]) == MnemonicCycles(line.mnemonic.value)
  {
    hide EncodeLine;
    EncodedOpcode(line, address, table);
  }

  lemma {:induction false} PathTakes(src: Source, table: Table, path: seq<nat>, s: Arch)
    requires Accepted(src, table) && Loaded(src, table, s.mem) && Follow(src, path, s).Some?
    ensures TotalCycles(s, |path|) == PathCycles(src, path)
  {
    hide Accepted, Loaded, Step, Perform, CyclesOf, EncodeLine, MnemonicCycles, Fetch;
    assert Sized(src) by { AcceptedIsSized(src, table); }
    if path == [] {
    } else {
      var front, i := path[..|path| - 1], path[|path| - 1];
      PathTakes(src, table, front, s);
      ProgramMeans(src, table, front, s);
      var t := Run(s, |front|);
      AtLine(src, table, i, t);
      var m := MnemonicAt(src, table, i, t);
      WordsInMemory(src, table, i, t);
      WordCycles(src[i], t.pc, table);
    }
  }

  /** From any fetch-stage state with the program in memory, the core does what the source does. */
  lemma SourceRunsInRtl(src: Source, table: Table, path: seq<nat>, system: System)
    requires Accepted(src, table) && Loaded(src, table, system.mem) && AtFetch(system)
    requires Follow(src, path, ArchOf(system)).Some?
    ensures var t := Ticks(system, PathCycles(src, path));
            AtFetch(t) && ArchOf(t) == Follow(src, path, ArchOf(system)).value && Loaded(src, table, t.mem)
  {
    hide Accepted, Loaded, Follow, Step, Supported, Current, Tick, CyclesOf;
    assert Sized(src) by { AcceptedIsSized(src, table); }
    ProgramMeans(src, table, path, ArchOf(system));
    PathTakes(src, table, path, ArchOf(system));
    RunRefines(system, |path|);
  }

  /** The same after a reset in any state: the core does what the source does from the initial state. */
  lemma SourceRunsAfterReset(src: Source, table: Table, path: seq<nat>, system: System)
    requires Accepted(src, table) && Loaded(src, table, system.mem) && Follow(src, path, InitArch(system.mem)).Some?
    ensures var t := Ticks(Tick(Clock(system, false)), PathCycles(src, path));
            AtFetch(t) && ArchOf(t) == Follow(src, path, InitArch(system.mem)).value && Loaded(src, table, t.mem)
  {
    hide Accepted, Loaded, Follow, Tick, Clock;
    ResetReachesFetch(system);
    SourceRunsInRtl(src, table, path, Tick(Clock(system, false)));
  }
}
