/**
 * What each unit of the FPA emulator does to the machine, as functions from
 * the state before to the outcome after. The imperative emulator in
 * `Emulator` is proved to compute exactly these outcomes.
 *
 * The state is the FPA register file (`m->freg`), the trapped thread's saved
 * general registers (`regs`, indexed from r0, with the CPSR in slot 14) and
 * memory, which also holds the instruction words. `fabort` stops the process,
 * so an aborting unit yields `Fault` together with the state at the point of
 * the abort; nothing runs after it.
 */
module Fpa {
  import opened FloatBits
  import opened Mem

  datatype MachineState = MachineState(freg: seq<bv64>, regs: seq<bv32>, mem: Bytes)

  /** A machine has eight FPA registers and sixteen saved general registers. */
  type Machine = m: MachineState | |m.freg| == 8 && |m.regs| == 16
    witness MachineState(seq(8, _ => 0), seq(16, _ => 0), _ => 0)

  datatype Outcome = Ok(state: Machine) | Fault(state: Machine)

  /** Slot of the saved CPSR in `regs`. */
  const Cpsr: int := 14

  // ---------------------------------------------------------------- dataprocess

  /** Bits 20..23: the operation. */
  function Opcode(i: bv32): bv32 {
    (i >> 20) & 15
  }

  /** Bit 15: unary (`mvf`, ...) or binary (`muf`, ...) operation. */
  function Unary(i: bv32): bv32 {
    (i >> 15) & 1
  }

  /** Bits 12..14: the destination register. */
  function Dest(i: bv32): (r: int)
    ensures 0 <= r < 8
  {
    ((i >> 12) & 7) as int
  }

  /** Bits 16..18: the left operand register. */
  function Lhs(i: bv32): (r: int)
    ensures 0 <= r < 8
  {
    ((i >> 16) & 7) as int
  }

  /** Bits 0..3: the right operand, a register or a constant (see `Frhs`). */
  function Rhs(i: bv32): bv32 {
    i & 15
  }

  /**
   * `dataprocess`: the precision is decoded first, then `mvf` (unary opcode 0)
   * copies the right operand and `muf` (binary opcode 1) multiplies; every
   * other operation aborts.
   */
  function DataProcess(m: Machine, i: bv32): (r: Outcome)
  {
    if Precision(i).None? then Fault(m)
    else if Unary(i) == 1 then
      if Opcode(i) == 0 then Ok(m.(freg := m.freg[Dest(i) := Frhs(m.freg, Rhs(i))]))
      else Fault(m)
    else if Opcode(i) == 1 then Ok(m.(freg := m.freg[Dest(i) := Muf(m.freg[Lhs(i)], Frhs(m.freg, Rhs(i)))]))
    else Fault(m)
  }

  /** The operations `dataprocess` implements: `mvf` and `muf`, with a valid precision. */
  predicate DataProcessSupported(i: bv32) {
    Precision(i).Some? && ((Unary(i) == 1 && Opcode(i) == 0) || (Unary(i) == 0 && Opcode(i) == 1))
  }

  // ---------------------------------------------------------------- compare

  /**
   * `cmf`: the flags replace the top four bits of the saved CPSR, the low
   * 28 bits are kept.
   */
  function Compare(m: Machine, i: bv32): (r: Machine)
  {
    m.(regs := m.regs[Cpsr := (m.regs[Cpsr] & 0x0fff_ffff) | CompareFlags(m.freg[Lhs(i)], Frhs(m.freg, Rhs(i)))])
  }

  // ---------------------------------------------------------------- loadstore

  function Coproc(i: bv32): bv32 { (i >> 8) & 0xf }
  function IsLoad(i: bv32): bv32 { (i >> 20) & 1 }
  function PreIndexed(i: bv32): bv32 { (i >> 24) & 1 }
  function Up(i: bv32): bv32 { (i >> 23) & 1 }
  function Writeback(i: bv32): bv32 { (i >> 21) & 1 }

  /** The transfer length as built in the source: bit 21 or-ed with bit 15 (1 = double). */
  function Tlen(i: bv32): bv32 {
    ((i >> 21) & 1) | ((i >> 15) & 1)
  }

  /** Bits 16..19: the base register. */
  function Base(i: bv32): bv32 { (i >> 16) & 0xf }

  /** The slot of general register `r` in `regs`. */
  function RegIndex(r: bv32): (k: int)
    requires r < 16
    ensures 0 <= k < 16
  {
    r as int
  }

  /** Bits 12..14: the FPA register transferred, the same field as the destination of `dataprocess`. */
  function TransferReg(i: bv32): int {
    Dest(i)
  }

  /** The 8-bit word offset, in bytes. */
  function Offset(i: bv32): bv32 { (i & 0xff) << 2 }

  /** The field checks of `loadstore`, in the order of the source; any failure aborts. */
  predicate TransferRejected(i: bv32) {
    Coproc(i) != 1 || PreIndexed(i) != 1 || Writeback(i) != 0 || Tlen(i) > 1 || Base(i) > 13
  }

  /** The effective address: base register plus or minus the offset, modulo 2^32. */
  function Address(m: Machine, i: bv32): bv32
    requires Base(i) <= 13
  {
    Displace(m.regs[RegIndex(Base(i))], Up(i), Offset(i))
  }

  /** `base` moved up (`up` = 1) or down by `offset`, modulo 2^32. */
  function Displace(base: bv32, up: bv32, offset: bv32): bv32 {
    if up == 1 then base + offset else base - offset
  }

  /**
   * `loadstore` (`ldf`/`stf`): a double moves as a raw doubleword, a single
   * is converted with `s2d` on load and `d2s` on store.
   */
  function LoadStore(m: Machine, i: bv32): (r: Outcome)
  {
    if TransferRejected(i) then Fault(m)
    else
      var addr := Address(m, i);
      var f := TransferReg(i);
      if IsLoad(i) == 1 then
        if Tlen(i) != 0 then Ok(m.(freg := m.freg[f := Load64(m.mem, addr)]))
        else Ok(m.(freg := m.freg[f := S2D(Load32(m.mem, addr))]))
      else
        if Tlen(i) != 0 then Ok(m.(mem := Store64(m.mem, addr, m.freg[f])))
        else Ok(m.(mem := Store32(m.mem, addr, D2S(m.freg[f]))))
  }

  // ---------------------------------------------------------------- loadconst

  /**
   * The guard of `loadconst` as the compiler reads it: `!=` binds tighter
   * than `&`, so the first and third tests mask the instruction word with
   * the truth value 1.
   */
  predicate LoadConstRejected(w0: bv32, w1: bv32, w2: bv32) {
    (w0 & CBool(0xffff_f000 != 0xe59f_b838)) != 0
    || w1 != 0xe08b_b00c
    || (w2 & CBool(0xffff_8fff != 0xed9b_0100)) != 0
  }

  /** The address of the constant: the pc (a byte address) plus the 12-bit offset plus 8. */
  function ConstAddress(pc: bv32, w0: bv32): bv32 {
    pc + (w0 & 0xfff) + 8
  }

  /** The constant the sequence loads: the word at the pc-relative address given by the first word. */
  function ConstWord(m: Machine, pc: bv32): bv32 {
    Load32(m.mem, ConstAddress(pc, Load32(m.mem, pc)))
  }

  /** The value written to r11: the constant plus r12, modulo 2^32. */
  function R11Value(c: bv32, r12: bv32): bv32 {
    c + r12
  }

  /** `regs[11] = c + regs[12]`. */
  function AddR12(regs: seq<bv32>, c: bv32): seq<bv32>
    requires |regs| == 16
  {
    regs[11 := R11Value(c, regs[12])]
  }

  /** The first two words of the sequence: r11 gets the constant plus r12. */
  function LoadConstBase(m: Machine, pc: bv32): Machine {
    m.(regs := AddR12(m.regs, ConstWord(m, pc)))
  }

  /**
   * `loadconst`: the three-word sequence that loads a constant relative to
   * the pc into r11, adds r12, and then transfers through r11 with the
   * third word.
   */
  function LoadConst(m: Machine, pc: bv32): (r: Outcome) {
    var w0, w1, w2 := Load32(m.mem, pc), Load32(m.mem, pc + 4), Load32(m.mem, pc + 8);
    if LoadConstRejected(w0, w1, w2) then Fault(m)
    else LoadStore(LoadConstBase(m, pc), w2)
  }

  // ---------------------------------------------------------------- stepflt

  /** What `stepflt` did, and the number of instruction words it consumed. */
  datatype Step = Step(outcome: Outcome, words: bv32)

  /** Bits 25..27: the instruction class. */
  function Class(i: bv32): bv32 {
    (i >> 25) & 7
  }

  /** The lookahead signature: bits 24..27 of three consecutive words, packed into 12 bits. */
  function Signature(w0: bv32, w1: bv32, w2: bv32): bv32 {
    ((w0 & 0x0f00_0000) >> 16) | ((w1 & 0x0f00_0000) >> 20) | ((w2 & 0x0f00_0000) >> 24)
  }

  /**
   * `stepflt` at the instruction at byte address `pc`: class 6 is a
   * transfer, class 7 an SWI (not handled), a compare or a data operation;
   * anything else is checked for the three-word constant load. The word
   * count of an aborting step is the one the source would return next.
   */
  function StepFlt(m: Machine, pc: bv32): (r: Step)
  {
    var i := Load32(m.mem, pc);
    var c := Class(i);
    if c == 6 then Step(LoadStore(m, i), 1)
    else if c == 7 then
      if (i >> 24) & 1 != 0 then Step(Ok(m), 0)
      else if (i >> 4) & 1 != 0 then
        if i & 0x00f0_ff00 != 0x0090_f100 then Step(Fault(m), 1)
        else Step(Ok(Compare(m, i)), 1)
      else Step(DataProcess(m, i), 1)
    else if Signature(i, Load32(m.mem, pc + 4), Load32(m.mem, pc + 8)) == 0x50d then Step(LoadConst(m, pc), 3)
    else Step(Ok(m), 0)
  }

  // ---------------------------------------------------------------- _sfloat2

  /**
   * How a run of `_sfloat2` ends: at the first pc where no FPA instruction
   * starts (a step there changes nothing), by an abort, or with the fuel spent.
   */
  datatype Run = Done(state: Machine, pc: bv32) | Aborted(state: Machine) | OutOfFuel(state: Machine, pc: bv32)

  /** The byte address `words` instruction words past `pc`. */
  function Advance(pc: bv32, words: bv32): bv32 {
    pc + 4 * words
  }

  /**
   * The loop of `_sfloat2` for a given step function: step from `lr` and
   * advance by the words consumed, until a step consumes none. The source
   * loop has no bound; `fuel` caps the number of steps.
   */
  function Iterate(step: (Machine, bv32) -> Step, m: Machine, lr: bv32, fuel: nat): Run
    decreases fuel
  {
    if fuel == 0 then OutOfFuel(m, lr)
    else
      var s := step(m, lr);
      if s.outcome.Fault? then Aborted(s.outcome.state)
      else if s.words == 0 then Done(m, lr)
      else Iterate(step, s.outcome.state, Advance(lr, s.words), fuel - 1)
  }

  /** `_sfloat2`: the loop over `stepflt`. */
  function SFloat2(m: Machine, lr: bv32, fuel: nat): Run {
    Iterate(StepFlt, m, lr, fuel)
  }
}
