/**
 * The source machine gets stuck only where it should: the runs of an accepted program that it follows are exactly
 * those that reach instructions of the program and never store into it.
 */
module SourceProgress {
  import opened Words
  import opened Results
  import opened Isa
  import opened Assembler
  import opened SourceMachine
  import opened AssemblerCorrect

  /** The next instruction stores below `size`. */
  predicate Overwrites(s: Arch, size: nat) {
    Supported(s) && match Current(s)
                    case Strr(dr, _) => s.regs[dr] < size
                    case _ => false
  }

  /** The machine is about to execute an instruction of the source, and not one that stores into the program. */
  ghost predicate InSource(src: Source, s: Arch)
    requires Sized(src)
  {
    && (exists i: nat :: i < |src| && src[i].mnemonic.Some? && Address(src, i) == s.pc)
    && !Overwrites(s, ProgramSize(src))
  }

  ghost predicate CanFollow(src: Source, s: Arch, n: nat)
    requires Sized(src)
  {
    exists path :: |path| == n && Follow(src, path, s).Some?
  }

  ghost predicate StaysInSource(src: Source, s: Arch, n: nat)
    requires Sized(src)
  {
    forall k: nat :: k < n ==> InSource(src, Run(s, k))
  }

  /** Only STRR assembles to a store. */
  lemma OnlyStrrStores(line: Line, address: nat, table: Table)
    requires line.mnemonic.Some? && EncodeLine(line, address, table).Ok?
    ensures var ws := EncodeLine(line, address, table).value;
            ws != [] && (Opcode(ws[0]) == 0x83 <==> line.mnemonic == Some(STRR))
  {
    hide EncodeLine;
    EncodedOpcode(line, address, table);
  }

  lemma StoreOpcode(w: Word)
    ensures Decode(w).Some? && Decode(w).value.Strr? <==> Opcode(w) == 0x83
    ensures Opcode(w) == 0x83 ==> Decode(w) == Some(Strr(DestField(w), SourceField(w)))
  {
    hide Opcode, DestField, SourceField, Imm8, Signed8;
  }

  /** Every line but a store has an outcome, for all its operands are usable in an accepted program. */
  lemma OthersPerform(src: Source, table: Table, i: nat, s: Arch)
    requires At(src, table, i, s) && src[i].mnemonic != Some(STRR)
    ensures Sized(src) && Perform(src, i, s).Some?
  {
    hide Exec, Decode, Fields, Address, Denotes, ResolveTarget, Sized, IsTable, Accepted, Loaded;
    WordsInMemory(src, table, i, s);
  }

  lemma StorePerforms(src: Source, table: Table, i: nat, s: Arch)
    requires At(src, table, i, s) && src[i].mnemonic == Some(STRR)
    ensures Sized(src) && (Perform(src, i, s).None? <==> Overwrites(s, ProgramSize(src)))
  {
    hide Exec, Decode, Fields, Address, Denotes, ResolveTarget, Sized, IsTable, Accepted, Loaded;
    WordsInMemory(src, table, i, s);
    MemoryDecodes(STRR, RegAt(src[i].operands, 0).value, RegAt(src[i].operands, 1).value);
  }

  /** In an accepted program, the source machine is stuck at an instruction iff that stores into the program. */
  lemma StuckExactlyAtOverwrites(src: Source, table: Table, i: nat, s: Arch)
    requires At(src, table, i, s)
    ensures Sized(src) && (Perform(src, i, s).None? <==> Overwrites(s, ProgramSize(src)))
  {
    hide Address, Denotes, ResolveTarget, IsTable, Loaded, EncodeLine, Perform, Decode, Opcode;
    if src[i].mnemonic == Some(STRR) {
      StorePerforms(src, table, i, s);
    } else {
      OthersPerform(src, table, i, s);
      WordsInMemory(src, table, i, s);
      OnlyStrrStores(src[i], s.pc, table);
      StoreOpcode(Fetch(s));
    }
  }

  /**
   * Meaning is preserved the other way too: while the assembled words run inside the program without storing into
   * it, some path through the source follows them.
   */
  lemma {:induction false} RunIsFollowed(src: Source, table: Table, s: Arch, n: nat) returns (path: seq<nat>)
    requires Accepted(src, table) && Loaded(src, table, s.mem)
    requires Sized(src) && StaysInSource(src, s, n)
    ensures |path| == n && Follow(src, path, s) == Some(Run(s, n))
  {
    hide Accepted, Loaded, Step, Supported, Perform, Current, Overwrites;
    assert Sized(src) by { AcceptedIsSized(src, table); }
    path := [];
    if n == 0 {
    } else {
      var front := RunIsFollowed(src, table, s, n - 1);
      ProgramMeans(src, table, front, s);
      var t := Run(s, n - 1);
      assert InSource(src, t);
      var i: nat :| i < |src| && src[i].mnemonic.Some? && Address(src, i) == t.pc;
      assert At(src, table, i, t);
      StuckExactlyAtOverwrites(src, table, i, t);
      LineMeans(src, table, i, t);
      path := front + [i];
      assert path[..n - 1] == front;
    }
  }

  /** A path that the source machine follows stays inside the source. */
  lemma {:induction false} FollowedStaysInSource(src: Source, table: Table, path: seq<nat>, s: Arch)
    requires Accepted(src, table) && Loaded(src, table, s.mem) && Follow(src, path, s).Some?
    ensures Sized(src) && StaysInSource(src, s, |path|)
  {
    hide Accepted, Loaded, Step, Supported, Perform, Current, Overwrites;
    assert Sized(src) by { AcceptedIsSized(src, table); }
    if path == [] {
    } else {
      var front, i := path[..|path| - 1], path[|path| - 1];
      FollowedStaysInSource(src, table, front, s);
      ProgramMeans(src, table, front, s);
      AtLine(src, table, i, Run(s, |front|));
      StuckExactlyAtOverwrites(src, table, i, Run(s, |front|));
    }
  }

  /** The source machine can follow n steps iff the assembled words spend them in the program and leave it alone. */
  lemma FollowedExactlyInSource(src: Source, table: Table, s: Arch, n: nat)
    requires Accepted(src, table) && Loaded(src, table, s.mem)
    ensures Sized(src) && (CanFollow(src, s, n) <==> StaysInSource(src, s, n))
  {
    hide Accepted, Loaded, InSource, Run, Perform;
    assert Sized(src) by { AcceptedIsSized(src, table); }
    if CanFollow(src, s, n) {
      var path :| |path| == n && Follow(src, path, s).Some?;
      FollowedStaysInSource(src, table, path, s);
    }
    if StaysInSource(src, s, n) {
      var path := RunIsFollowed(src, table, s, n);
    }
  }
}
