/**
 * The emulator as the runtime runs it: `m->freg` is an array of eight
 * doublewords updated in place, the trapped thread's saved registers an array
 * of sixteen words, and memory (holding both the instruction words and the
 * data) a field the transfers replace. Each method does what its C
 * counterpart does, step by step, and is proved to reach exactly the outcome
 * the corresponding function of `Fpa` gives for the state before the call.
 */
module Emulator {
  import opened FloatBits
  import opened Mem
  import opened Fpa
  import FpaProps

  class Fpu {
    /** `m->freg`. */
    const freg: array<bv64>
    /** The saved registers of the trapped thread, r0 first, the CPSR in slot 14. */
    const regs: array<bv32>
    /** Memory, instruction words included. */
    var mem: Bytes

    predicate Valid()
      reads this
    {
      freg.Length == 8 && regs.Length == 16
    }

    /** The state as a value, for the specification in `Fpa`. */
    function State(): Machine
      reads this, freg, regs
      requires Valid()
    {
      MachineState(freg[..], regs[..], mem)
    }

    /** An emulator in state `m`. */
    constructor (m: Machine)
      ensures Valid() && State() == m
    {
      freg := new bv64[8]((k: int) requires 0 <= k < 8 => m.freg[k]);
      regs := new bv32[16]((k: int) requires 0 <= k < 16 => m.regs[k]);
      mem := m.mem;
    }

    /** `dataprocess` on the instruction at `pc`; `aborted` is what `fabort` would end. */
    method DataProcess(pc: bv32) returns (aborted: bool)
      requires Valid()
      modifies freg
      ensures Valid()
      ensures var r := Fpa.DataProcess(old(State()), Load32(mem, pc)); aborted == r.Fault? && State() == r.state
    {
      var i := Load32(mem, pc);
      var prec := Precision(i);
      if prec.None? {
        return true;
      }
      var fd, fn, rhs := Dest(i), Lhs(i), Frhs(freg[..], Rhs(i));
      if Unary(i) == 1 {
        if Opcode(i) == 0 {
          freg[fd] := rhs;
          return false;
        }
        return true;
      }
      if Opcode(i) == 1 {
        freg[fd] := Muf(freg[fn], rhs);
        return false;
      }
      return true;
    }

    /** `compare` on the instruction at `pc`: the flags go into the top of the saved CPSR. */
    method Compare(pc: bv32)
      requires Valid()
      modifies regs
      ensures Valid()
      ensures State() == Fpa.Compare(old(State()), Load32(mem, pc))
    {
      var i := Load32(mem, pc);
      var flags := CompareFlags(freg[Lhs(i)], Frhs(freg[..], Rhs(i)));
      regs[Cpsr] := (regs[Cpsr] & 0x0fff_ffff) | flags;
    }

    /** `loadstore` on the instruction at `pc`. */
    method LoadStore(pc: bv32) returns (aborted: bool)
      requires Valid()
      modifies this, freg
      ensures Valid()
      ensures var r := Fpa.LoadStore(old(State()), Load32(old(mem), pc)); aborted == r.Fault? && State() == r.state
    {
      var i := Load32(mem, pc);
      if TransferRejected(i) {
        return true;
      }
      ghost var m := State();
      var addr := Displace(regs[RegIndex(Base(i))], Up(i), Offset(i));
      assert addr == Address(m, i);
      var f := TransferReg(i);
      FpaProps.TlenAtMostOne(i);
      if IsLoad(i) == 1 {
        if Tlen(i) != 0 {
          FpaProps.LoadDoubleState(m, i);
          freg[f] := Load64(mem, addr);
        } else {
          FpaProps.LoadSingleState(m, i);
          freg[f] := S2D(Load32(mem, addr));
        }
        return false;
      }
      if Tlen(i) != 0 {
        FpaProps.StoreDoubleState(m, i);
        mem := Store64(mem, addr, freg[f]);
        return false;
      }
      FpaProps.StoreSingleState(m, i);
      mem := Store32(mem, addr, D2S(freg[f]));
      return false;
    }

    /** `loadconst` on the three words at `pc`. */
    method LoadConst(pc: bv32) returns (aborted: bool)
      requires Valid()
      modifies this, freg, regs
      ensures Valid()
      ensures var r := Fpa.LoadConst(old(State()), pc); aborted == r.Fault? && State() == r.state
    {
      var w0, w1, w2 := Load32(mem, pc), Load32(mem, pc + 4), Load32(mem, pc + 8);
      if LoadConstRejected(w0, w1, w2) {
        return true;
      }
      ghost var m := State();
      var addr := ConstAddress(pc, w0);
      var c, r12 := Load32(mem, addr), regs[12];
      assert c == ConstWord(m, pc) && r12 == m.regs[12];
      regs[11] := R11Value(c, r12);
      assert regs[..] == m.regs[11 := R11Value(c, r12)];
      FpaProps.AddR12Update(m.regs, c, r12);
      FpaProps.LoadConstAccepted(m, pc);
      aborted := LoadStore(pc + 8);
    }

    /** `stepflt` at `pc`: the number of words consumed, and whether the step aborted. */
    method StepFlt(pc: bv32) returns (words: bv32, aborted: bool)
      requires Valid()
      modifies this, freg, regs
      ensures Valid()
      ensures var s := Fpa.StepFlt(old(State()), pc);
        words == s.words && aborted == s.outcome.Fault? && State() == s.outcome.state
    {
      var i := Load32(mem, pc);
      ghost var m := State();
      var c := Class(i);
      if c == 6 {
        FpaProps.StepTransfer(m, pc, i);
        aborted := LoadStore(pc);
        return 1, aborted;
      }
      if c == 7 {
        if (i >> 24) & 1 != 0 {
          FpaProps.StepSwi(m, pc, i);
          return 0, false;
        }
        if (i >> 4) & 1 != 0 {
          if i & 0x00f0_ff00 != 0x0090_f100 {
            FpaProps.StepBadCompare(m, pc, i);
            return 1, true;
          }
          FpaProps.StepCompare(m, pc, i);
          Compare(pc);
          aborted := false;
        } else {
          FpaProps.StepData(m, pc, i);
          aborted := DataProcess(pc);
        }
        return 1, aborted;
      }
      if Signature(i, Load32(mem, pc + 4), Load32(mem, pc + 8)) == 0x50d {
        FpaProps.StepConst(m, pc, i);
        aborted := LoadConst(pc);
        return 3, aborted;
      }
      FpaProps.StepOther(m, pc, i);
      return 0, false;
    }

    /**
     * `_sfloat2`: step through the FPA instructions from `lr` and return the
     * address of the first word that is not one, unless a step aborts. At most
     * `fuel` steps are taken.
     */
    method SFloat2(lr: bv32, fuel: nat) returns (r: Run)
      requires Valid()
      modifies this, freg, regs
      ensures Valid()
      ensures r == Fpa.SFloat2(old(State()), lr, fuel) && State() == r.state
    {
      var pc, n := lr, fuel;
      while true
        invariant Valid()
        invariant Fpa.SFloat2(State(), pc, n) == Fpa.SFloat2(old(State()), lr, fuel)
        decreases n
      {
        if n == 0 {
          return OutOfFuel(State(), pc);
        }
        var words, aborted := StepFlt(pc);
        if aborted {
          return Aborted(State());
        }
        if words == 0 {
          return Done(State(), pc);
        }
        pc, n := Advance(pc, words), n - 1;
      }
    }
  }
}
