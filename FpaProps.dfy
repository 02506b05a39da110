/**
 * Properties of the emulator units of `Fpa`: when each one aborts, what it
 * writes, and that it writes nothing else.
 */
module FpaProps {
  import opened FloatBits
  import opened Mem
  import opened Fpa

  // ---------------------------------------------------------------- dataprocess

  /** `dataprocess` aborts exactly on an unsupported precision or operation. */
  lemma DataProcessFaults(m: Machine, i: bv32)
    ensures DataProcess(m, i).Fault? <==> !DataProcessSupported(i)
  {
  }

  /** An abort in `dataprocess` happens before any register is written. */
  lemma DataProcessFaultWritesNothing(m: Machine, i: bv32)
    requires DataProcess(m, i).Fault?
    ensures DataProcess(m, i).state == m
  {
  }

  /** `dataprocess` writes only the destination register. */
  lemma DataProcessFrame(m: Machine, i: bv32)
    ensures DataProcess(m, i).state.regs == m.regs
    ensures DataProcess(m, i).state.mem == m.mem
    ensures forall k :: 0 <= k < 8 && k != Dest(i) ==> DataProcess(m, i).state.freg[k] == m.freg[k]
  {
  }

  /** `mvf` copies the right operand, register or constant, unchanged into the destination. */
  lemma Mvf(m: Machine, i: bv32)
    requires Precision(i).Some? && Unary(i) == 1 && Opcode(i) == 0
    ensures DataProcess(m, i).Ok?
    ensures DataProcess(m, i).state.freg[Dest(i)] == Frhs(m.freg, Rhs(i))
  {
  }

  /** `muf` writes the product of the left register and the right operand into the destination. */
  lemma MufInstruction(m: Machine, i: bv32)
    requires Precision(i).Some? && Unary(i) == 0 && Opcode(i) == 1
    ensures DataProcess(m, i).Ok?
    ensures DataProcess(m, i).state.freg[Dest(i)] == Muf(m.freg[Lhs(i)], Frhs(m.freg, Rhs(i)))
  {
  }

  /** `muf fd, fn, #1.0` clears the low 21 fraction bits of `fn`. */
  lemma MufByConstantOne(m: Machine, i: bv32)
    requires Precision(i).Some? && Unary(i) == 0 && Opcode(i) == 1 && Rhs(i) == 9
    ensures DataProcess(m, i).state.freg[Dest(i)] == m.freg[Lhs(i)] & 0xffff_ffff_ffe0_0000
  {
    var x, y := m.freg[Lhs(i)], Frhs(m.freg, Rhs(i));
    MufInstruction(m, i);
    assert y == FpdConst[1];
    MufByOne(x);
  }

  /** The precision field is checked but not used: single and double instructions compute the same. */
  lemma DataProcessIgnoresPrecision(m: Machine, i: bv32)
    requires (i >> 19) & 1 == 0
    ensures DataProcess(m, i & 0xffff_ff7f) == DataProcess(m, i | 0x80)
  {
  }

  // ---------------------------------------------------------------- compare

  /** `cmf` keeps the low 28 bits of the saved CPSR. */
  lemma CompareKeepsLowBits(m: Machine, i: bv32)
    ensures Compare(m, i).regs[Cpsr] & 0x0fff_ffff == m.regs[Cpsr] & 0x0fff_ffff
  {
    var lhs, rhs := m.freg[Lhs(i)], Frhs(m.freg, Rhs(i));
    CompareFlagsLowWords(lhs, rhs);
    UnsignedFlagsCases(Low32(lhs), Low32(rhs));
  }

  /** The top four bits of the new CPSR are the unsigned comparison of the operands' low words. */
  lemma CompareSetsFlags(m: Machine, i: bv32)
    ensures Compare(m, i).regs[Cpsr] & 0xf000_0000 == UnsignedFlags(Low32(m.freg[Lhs(i)]), Low32(Frhs(m.freg, Rhs(i))))
  {
    var lhs, rhs := m.freg[Lhs(i)], Frhs(m.freg, Rhs(i));
    CompareFlagsLowWords(lhs, rhs);
    UnsignedFlagsCases(Low32(lhs), Low32(rhs));
  }

  /** `cmf` writes only the saved CPSR. */
  lemma CompareFrame(m: Machine, i: bv32)
    ensures Compare(m, i).freg == m.freg
    ensures Compare(m, i).mem == m.mem
    ensures forall k :: 0 <= k < 16 && k != Cpsr ==> Compare(m, i).regs[k] == m.regs[k]
  {
  }

  // ---------------------------------------------------------------- loadstore

  /** `loadstore` aborts exactly when one of its field checks fails. */
  lemma LoadStoreFaults(m: Machine, i: bv32)
    ensures LoadStore(m, i).Fault? <==> TransferRejected(i)
  {
  }

  /** An abort in `loadstore` happens before any transfer. */
  lemma LoadStoreFaultWritesNothing(m: Machine, i: bv32)
    requires LoadStore(m, i).Fault?
    ensures LoadStore(m, i).state == m
  {
  }

  /** The length built from bits 21 and 15 is never above 1, so its range check never fires. */
  lemma TlenAtMostOne(i: bv32)
    ensures Tlen(i) <= 1
  {
  }

  /** Writeback must be clear on an accepted transfer, so the length is bit 15 alone there. */
  lemma TlenOfAcceptedTransfer(i: bv32)
    requires !TransferRejected(i)
    ensures Tlen(i) == (i >> 15) & 1
  {
  }

  /** The offset is a multiple of four below 1024. */
  lemma OffsetRange(i: bv32)
    ensures Offset(i) & 3 == 0 && Offset(i) <= 0x3fc
  {
  }

  /** A load writes only the transferred FPA register. */
  lemma LoadFrame(m: Machine, i: bv32)
    requires IsLoad(i) == 1
    ensures LoadStore(m, i).state.regs == m.regs
    ensures LoadStore(m, i).state.mem == m.mem
    ensures forall k :: 0 <= k < 8 && k != TransferReg(i) ==> LoadStore(m, i).state.freg[k] == m.freg[k]
  {
  }

  /** A store leaves the registers alone. */
  lemma StoreKeepsRegisters(m: Machine, i: bv32)
    requires IsLoad(i) == 0
    ensures LoadStore(m, i).state.freg == m.freg
    ensures LoadStore(m, i).state.regs == m.regs
  {
  }

  /** What each accepted transfer does, one lemma per direction and length. */
  lemma LoadSingleState(m: Machine, i: bv32)
    requires !TransferRejected(i) && IsLoad(i) == 1 && Tlen(i) == 0
    ensures LoadStore(m, i) == Ok(m.(freg := m.freg[TransferReg(i) := S2D(Load32(m.mem, Address(m, i)))]))
  {
  }

  lemma LoadDoubleState(m: Machine, i: bv32)
    requires !TransferRejected(i) && IsLoad(i) == 1 && Tlen(i) == 1
    ensures LoadStore(m, i) == Ok(m.(freg := m.freg[TransferReg(i) := Load64(m.mem, Address(m, i))]))
  {
  }

  lemma StoreSingleState(m: Machine, i: bv32)
    requires !TransferRejected(i) && IsLoad(i) == 0 && Tlen(i) == 0
    ensures LoadStore(m, i) == Ok(m.(mem := Store32(m.mem, Address(m, i), D2S(m.freg[TransferReg(i)]))))
  {
  }

  lemma StoreDoubleState(m: Machine, i: bv32)
    requires !TransferRejected(i) && IsLoad(i) == 0 && Tlen(i) == 1
    ensures LoadStore(m, i) == Ok(m.(mem := Store64(m.mem, Address(m, i), m.freg[TransferReg(i)])))
  {
  }

  /** Two transfers with the same base, direction and offset fields address the same bytes. */
  lemma SameAddress(m: Machine, m1: Machine, i: bv32, j: bv32)
    requires m1.regs == m.regs
    requires Base(i) <= 13 && Base(j) == Base(i) && Up(j) == Up(i) && Offset(j) == Offset(i)
    ensures Address(m1, j) == Address(m, i)
  {
  }

  /** A single store to effective address `a` changes only the four bytes from `a` up. */
  lemma StoreSingleFrame(m: Machine, i: bv32, a: bv32, b: bv32)
    requires !TransferRejected(i) && IsLoad(i) == 0 && Tlen(i) == 0 && a == Address(m, i)
    requires b != a && b != a + 1 && b != a + 2 && b != a + 3
    ensures LoadStore(m, i).state.mem(b) == m.mem(b)
  {
    StoreSingleState(m, i);
    Store32Frame(m.mem, a, D2S(m.freg[TransferReg(i)]), b);
  }

  /** A double store to effective address `a` changes only the eight bytes from `a` up. */
  lemma StoreDoubleFrame(m: Machine, i: bv32, a: bv32, b: bv32)
    requires !TransferRejected(i) && IsLoad(i) == 0 && Tlen(i) == 1 && a == Address(m, i)
    requires b != a && b != a + 1 && b != a + 2 && b != a + 3
    requires b != a + 4 && b != a + 5 && b != a + 6 && b != a + 7
    ensures LoadStore(m, i).state.mem(b) == m.mem(b)
  {
    StoreDoubleState(m, i);
    Store64Frame(m.mem, a, m.freg[TransferReg(i)], b);
  }

  /** A single store leaves the `d2s` conversion of the register in the word at the effective address. */
  lemma StoreSingleWrites(m: Machine, i: bv32)
    requires !TransferRejected(i) && IsLoad(i) == 0 && Tlen(i) == 0
    ensures Load32(LoadStore(m, i).state.mem, Address(m, i)) == D2S(m.freg[TransferReg(i)])
  {
    StoreSingleState(m, i);
    Load32Store32(m.mem, Address(m, i), D2S(m.freg[TransferReg(i)]));
  }

  /** Loading a double back through the same address (a matching `ldfd`) restores the stored register. */
  lemma DoubleStoreLoad(m: Machine, st: bv32, ld: bv32)
    requires !TransferRejected(st) && IsLoad(st) == 0 && Tlen(st) == 1
    requires !TransferRejected(ld) && IsLoad(ld) == 1 && Tlen(ld) == 1
    requires Base(ld) == Base(st) && Up(ld) == Up(st) && Offset(ld) == Offset(st)
    ensures LoadStore(LoadStore(m, st).state, ld).state.freg[TransferReg(ld)] == m.freg[TransferReg(st)]
  {
    var a := Address(m, st);
    StoreDoubleState(m, st);
    var m1 := LoadStore(m, st).state;
    SameAddress(m, m1, st, ld);
    LoadDoubleState(m1, ld);
    Load64Store64(m.mem, a, m.freg[TransferReg(st)]);
  }

  /** Loading a single back through the same address gives the register through `d2s` and `s2d`. */
  lemma SingleStoreLoad(m: Machine, st: bv32, ld: bv32)
    requires !TransferRejected(st) && IsLoad(st) == 0 && Tlen(st) == 0
    requires !TransferRejected(ld) && IsLoad(ld) == 1 && Tlen(ld) == 0
    requires Base(ld) == Base(st) && Up(ld) == Up(st) && Offset(ld) == Offset(st)
    ensures LoadStore(LoadStore(m, st).state, ld).state.freg[TransferReg(ld)] == S2D(D2S(m.freg[TransferReg(st)]))
  {
    var a := Address(m, st);
    StoreSingleState(m, st);
    var m1 := LoadStore(m, st).state;
    SameAddress(m, m1, st, ld);
    LoadSingleState(m1, ld);
    Load32Store32(m.mem, a, D2S(m.freg[TransferReg(st)]));
  }

  /** A transfer never writes the general registers. */
  lemma LoadStoreKeepsRegs(m: Machine, i: bv32)
    ensures LoadStore(m, i).state.regs == m.regs
  {
  }

  // ---------------------------------------------------------------- loadconst

  /** `loadconst` aborts when its guard rejects the three words or the transfer in the third word is rejected. */
  lemma LoadConstFaults(m: Machine, pc: bv32)
    ensures var w0, w1, w2 := Load32(m.mem, pc), Load32(m.mem, pc + 4), Load32(m.mem, pc + 8);
      LoadConst(m, pc).Fault? <==> LoadConstRejected(w0, w1, w2) || TransferRejected(w2)
  {
  }

  /**
   * The guard as the compiler reads it tests only bit 0 of the first and
   * third words; only the second word is compared in full.
   */
  lemma LoadConstGuardAsWritten(w0: bv32, w1: bv32, w2: bv32)
    ensures LoadConstRejected(w0, w1, w2) <==> w0 & 1 != 0 || w1 != 0xe08b_b00c || w2 & 1 != 0
  {
  }

  /**
   * So the guard accepts a first word that is no `ldr r11, [pc, #k]` at all.
   * The word 0x0500_0000 (class 2) still gives the lookahead signature 0x50d,
   * so `stepflt` hands it to `loadconst`, and the third word is an accepted
   * single load through r11.
   */
  lemma LoadConstAcceptsNonLoad()
    ensures !LoadConstRejected(0x0500_0000, 0xe08b_b00c, 0x0d9b_0100)
    ensures Class(0x0500_0000) == 2 && Signature(0x0500_0000, 0xe08b_b00c, 0x0d9b_0100) == 0x50d
    ensures !TransferRejected(0x0d9b_0100) && IsLoad(0x0d9b_0100) == 1 && Base(0x0d9b_0100) == 11
  {
    LoadConstGuardAsWritten(0x0500_0000, 0xe08b_b00c, 0x0d9b_0100);
  }

  /** An accepted sequence is the transfer of its third word from the machine with r11 set. */
  lemma LoadConstAccepted(m: Machine, pc: bv32)
    requires !LoadConstRejected(Load32(m.mem, pc), Load32(m.mem, pc + 4), Load32(m.mem, pc + 8))
    ensures LoadConst(m, pc) == LoadStore(LoadConstBase(m, pc), Load32(m.mem, pc + 8))
  {
  }

  /** `AddR12` writes r11 with the sum and no other register. */
  lemma AddR12Writes(regs: seq<bv32>, c: bv32)
    requires |regs| == 16
    ensures AddR12(regs, c)[11] == c + regs[12]
    ensures forall k :: 0 <= k < 16 && k != 11 ==> AddR12(regs, c)[k] == regs[k]
  {
  }

  /** Writing `c` plus the value of r12 into r11 is `AddR12`. */
  lemma AddR12Update(regs: seq<bv32>, c: bv32, r12: bv32)
    requires |regs| == 16 && r12 == regs[12]
    ensures regs[11 := R11Value(c, r12)] == AddR12(regs, c)
  {
  }

  /** An accepted sequence writes the registers as its first two words do. */
  lemma LoadConstRegs(m: Machine, pc: bv32)
    requires !LoadConstRejected(Load32(m.mem, pc), Load32(m.mem, pc + 4), Load32(m.mem, pc + 8))
    ensures LoadConst(m, pc).state.regs == AddR12(m.regs, ConstWord(m, pc))
  {
    LoadConstAccepted(m, pc);
    LoadStoreKeepsRegs(LoadConstBase(m, pc), Load32(m.mem, pc + 8));
  }

  /** `loadconst` writes no general register but r11. */
  lemma LoadConstFrame(m: Machine, pc: bv32)
    ensures forall k :: 0 <= k < 16 && k != 11 ==> LoadConst(m, pc).state.regs[k] == m.regs[k]
  {
    LoadStoreKeepsRegs(LoadConstBase(m, pc), Load32(m.mem, pc + 8));
    AddR12Writes(m.regs, ConstWord(m, pc));
  }

  // ---------------------------------------------------------------- stepflt

  /** The cases of `stepflt`, one lemma each, with the instruction word `i` at `pc`. */
  lemma StepTransfer(m: Machine, pc: bv32, i: bv32)
    requires i == Load32(m.mem, pc) && Class(i) == 6
    ensures StepFlt(m, pc) == Step(LoadStore(m, i), 1)
  {
  }

  lemma StepSwi(m: Machine, pc: bv32, i: bv32)
    requires i == Load32(m.mem, pc) && Class(i) == 7 && (i >> 24) & 1 != 0
    ensures StepFlt(m, pc) == Step(Ok(m), 0)
  {
  }

  lemma StepBadCompare(m: Machine, pc: bv32, i: bv32)
    requires i == Load32(m.mem, pc) && Class(i) == 7 && (i >> 24) & 1 == 0 && (i >> 4) & 1 != 0
    requires i & 0x00f0_ff00 != 0x0090_f100
    ensures StepFlt(m, pc) == Step(Fault(m), 1)
  {
  }

  lemma StepCompare(m: Machine, pc: bv32, i: bv32)
    requires i == Load32(m.mem, pc) && Class(i) == 7 && (i >> 24) & 1 == 0 && (i >> 4) & 1 != 0
    requires i & 0x00f0_ff00 == 0x0090_f100
    ensures StepFlt(m, pc) == Step(Ok(Compare(m, i)), 1)
  {
  }

  lemma StepData(m: Machine, pc: bv32, i: bv32)
    requires i == Load32(m.mem, pc) && Class(i) == 7 && (i >> 24) & 1 == 0 && (i >> 4) & 1 == 0
    ensures StepFlt(m, pc) == Step(DataProcess(m, i), 1)
  {
  }

  lemma StepConst(m: Machine, pc: bv32, i: bv32)
    requires i == Load32(m.mem, pc) && Class(i) != 6 && Class(i) != 7
    requires Signature(i, Load32(m.mem, pc + 4), Load32(m.mem, pc + 8)) == 0x50d
    ensures StepFlt(m, pc) == Step(LoadConst(m, pc), 3)
  {
  }

  lemma StepOther(m: Machine, pc: bv32, i: bv32)
    requires i == Load32(m.mem, pc) && Class(i) != 6 && Class(i) != 7
    requires Signature(i, Load32(m.mem, pc + 4), Load32(m.mem, pc + 8)) != 0x50d
    ensures StepFlt(m, pc) == Step(Ok(m), 0)
  {
  }

  /** `stepflt` consumes no word, one word, or the three words of a constant load. */
  lemma StepWords(m: Machine, pc: bv32)
    ensures StepFlt(m, pc).words == 0 || StepFlt(m, pc).words == 1 || StepFlt(m, pc).words == 3
  {
  }

  /** When `stepflt` consumes no word it has not touched the machine. */
  lemma StepNoWordNoChange(m: Machine, pc: bv32)
    requires StepFlt(m, pc).words == 0
    ensures StepFlt(m, pc).outcome == Ok(m)
  {
  }

  /** `stepflt` stops exactly at an SWI or at a word outside classes 6 and 7 that does not start a constant load. */
  lemma StepStops(m: Machine, pc: bv32)
    ensures var i := Load32(m.mem, pc);
      StepFlt(m, pc).words == 0 <==>
        (Class(i) == 7 && (i >> 24) & 1 != 0)
        || (Class(i) != 6 && Class(i) != 7 && Signature(i, Load32(m.mem, pc + 4), Load32(m.mem, pc + 8)) != 0x50d)
  {
  }

  /** Three words are consumed exactly for the constant-load signature 0x50d outside classes 6 and 7. */
  lemma StepThreeWords(m: Machine, pc: bv32)
    ensures var i := Load32(m.mem, pc);
      StepFlt(m, pc).words == 3 <==>
        Class(i) != 6 && Class(i) != 7 && Signature(i, Load32(m.mem, pc + 4), Load32(m.mem, pc + 8)) == 0x50d
  {
  }

  /** A class 7 word with bit 4 set and bit 24 clear aborts unless it has the `cmf` pattern. */
  lemma StepComparePattern(m: Machine, pc: bv32)
    requires var i := Load32(m.mem, pc); Class(i) == 7 && (i >> 24) & 1 == 0 && (i >> 4) & 1 != 0
    ensures StepFlt(m, pc).outcome.Fault? <==> Load32(m.mem, pc) & 0x00f0_ff00 != 0x0090_f100
  {
  }

  // ---------------------------------------------------------------- _sfloat2

  /** A loop that ends normally ends at a state and pc where the step succeeds and consumes no word. */
  lemma {:induction false} IterateStops(step: (Machine, bv32) -> Step, m: Machine, lr: bv32, fuel: nat)
    requires Iterate(step, m, lr, fuel).Done?
    ensures var r := Iterate(step, m, lr, fuel); step(r.state, r.pc).outcome.Ok? && step(r.state, r.pc).words == 0
    decreases fuel
  {
    var s := step(m, lr);
    if s.outcome.Ok? && s.words != 0 {
      IterateStops(step, s.outcome.state, Advance(lr, s.words), fuel - 1);
    }
  }

  /** More fuel does not change a loop that ended within the fuel given. */
  lemma {:induction false} IterateMoreFuel(step: (Machine, bv32) -> Step, m: Machine, lr: bv32, fuel: nat, more: nat)
    requires !Iterate(step, m, lr, fuel).OutOfFuel? && fuel <= more
    ensures Iterate(step, m, lr, more) == Iterate(step, m, lr, fuel)
    decreases fuel
  {
    var s := step(m, lr);
    if s.outcome.Ok? && s.words != 0 {
      IterateMoreFuel(step, s.outcome.state, Advance(lr, s.words), fuel - 1, more - 1);
    }
  }

  /** A run of `_sfloat2` that ends normally returns the first pc where `stepflt` finds no FPA instruction. */
  lemma SFloat2Stops(m: Machine, lr: bv32, fuel: nat)
    requires SFloat2(m, lr, fuel).Done?
    ensures var r := SFloat2(m, lr, fuel); StepFlt(r.state, r.pc) == Step(Ok(r.state), 0)
  {
    IterateStops(StepFlt, m, lr, fuel);
    var r := SFloat2(m, lr, fuel);
    StepNoWordNoChange(r.state, r.pc);
  }

  /** At a word that is not an FPA instruction, `_sfloat2` returns at once with the machine untouched. */
  lemma SFloat2AtNonFloat(m: Machine, lr: bv32, fuel: nat)
    requires fuel > 0
    requires StepFlt(m, lr).words == 0
    ensures SFloat2(m, lr, fuel) == Done(m, lr)
  {
    StepNoWordNoChange(m, lr);
  }

  /** A step that succeeds and consumes words moves the loop on to the next instruction with one step less. */
  lemma SFloat2Advances(m: Machine, lr: bv32, fuel: nat)
    requires fuel > 0
    requires StepFlt(m, lr).outcome.Ok? && StepFlt(m, lr).words != 0
    ensures var s := StepFlt(m, lr);
      SFloat2(m, lr, fuel) == SFloat2(s.outcome.state, Advance(lr, s.words), fuel - 1)
  {
  }

  /** A step that aborts ends the loop with the state at the abort. */
  lemma SFloat2Aborts(m: Machine, lr: bv32, fuel: nat)
    requires fuel > 0
    requires StepFlt(m, lr).outcome.Fault?
    ensures SFloat2(m, lr, fuel) == Aborted(StepFlt(m, lr).outcome.state)
  {
  }

  /** The step bound only decides whether the loop finishes, not how: a finished run is the same under every larger bound. */
  lemma SFloat2MoreFuel(m: Machine, lr: bv32, fuel: nat, more: nat)
    requires !SFloat2(m, lr, fuel).OutOfFuel? && fuel <= more
    ensures SFloat2(m, lr, more) == SFloat2(m, lr, fuel)
  {
    IterateMoreFuel(StepFlt, m, lr, fuel, more);
  }
}
