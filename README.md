# ARM FPA floating-point emulator, modelled in Dafny

The Go runtime for ARM (`pkg/runtime/arm/softfloat.c`) emulates the FPA
coprocessor instructions that the compilers of the time emitted. A trapped
thread enters `_sfloat2` with the address of the first floating-point
instruction. It then steps through consecutive instructions with `stepflt`.
Each instruction is one of:

- a transfer `ldf`/`stf` (`loadstore`);
- an `mvf` or `muf` (`dataprocess`);
- a compare `cmf` (`compare`);
- the three-word "load constant" sequence (`loadconst`).

The loop ends at the first word that is not one of these, and `_sfloat2` returns its address. Any
instruction the emulator does not implement ends the process (`fabort`).

The project has five modules:

- `FloatBits`: the pure helpers. These are:
  - the constant table `fpdconst`;
  - `precision` and `frhs`;
  - the binary64 field extractors `fexp`, `fsign`, `fmantissa`;
  - the converters `d2s` and `s2d`;
  - the two kernels: the significand product and normalisation of `muf`, and the flag computation of `cmf`.

  C `int32` values are kept as their two's-complement `bv32` patterns. All
  machine words are bit-vectors, so every wrap-around is the one of the source.
- `Mem`: byte-addressed little-endian memory with 32-bit addresses. It gives the
  `*(uint32*)` and `*(uint64*)` accesses as loads and stores of 4 and 8 bytes.
- `Fpa`: each unit as a function from the machine before to the outcome
  after. The machine is the FPA registers `m->freg`, the sixteen saved
  general registers (the CPSR in slot 14) and memory. Instruction words are
  read from memory. `Ok` is a normal return. `Fault` is `fabort`, with the
  state at the point of abort. `_sfloat2` is `Iterate` over `StepFlt`.
- `FpaProps`: what each unit does and does not write, when it aborts, and the
  store/load round trips. It also proves what a finished `_sfloat2` run looks like.
- `Emulator`: class `Fpu`. Its array fields `freg` (eight doublewords) and
  `regs` (sixteen words) are fixed arrays whose elements are updated in place. Each store
  replaces its memory field. Its
  methods follow the C functions branch by branch. Each one is proved to reach
  exactly the outcome of the `Fpa` function for the state before the call.
  `SFloat2` is the `while` loop of `_sfloat2`.

The model follows the code as written, where it departs from what the comments
suggest:

- `s2d` shifts the sign bit left by 63, so the sign leaves the doubleword and
  every converted single is non-negative (`FloatBits.S2DFields`).
- `compare` assigns its operands to `uint32` variables. So only the low words of
  the two doubles are compared, and the sign and exponent tests never decide. The
  flags are the unsigned comparison of the low words
  (`FloatBits.CompareFlagsLowWords`, `FloatBits.CompareOneWithZero`).
- `loadstore` builds the transfer length from bit 21 or bit 15. Bit 21 is also the
  write-back bit, and an instruction with that bit set is rejected, so the length is bit 15
  (`FpaProps.TlenOfAcceptedTransfer`).
- In the guard of `loadconst`, `!=` binds tighter than `&`. The first and third words
  are therefore only checked at bit 0, and only the second word is compared in full
  (`FpaProps.LoadConstGuardAsWritten`, `FpaProps.LoadConstAcceptsNonLoad`).
- `muf` multiplies two 32-bit significands, so the low 21 fraction bits of each
  operand are lost. Multiplying by the constant 1.0 therefore clears them
  (`FloatBits.MufByOne`).

## Model

| member | source | states |
|---|---|---|
| `FloatBits.Precision` | pkg/runtime/arm/softfloat.c:81-93 | single (0) exactly when bits 19 and 7 are clear, double (1) exactly when only bit 7 is set, the abort path exactly when bit 19 is set |
| `FloatBits.Frhs` | pkg/runtime/arm/softfloat.c:95-103 | with bit 3 set the operand is entry `rhs mod 8` of the constant table, otherwise register `rhs mod 8` |
| `FloatBits.Int32ToUint64NonNegative` | pkg/runtime/arm/softfloat.c:189 | the cast of a non-negative int32 to uint64 is the zero extension |
| `FloatBits.Int32ToUint64Negative` | pkg/runtime/arm/softfloat.c:189 | the cast of a negative int32 to uint64 fills the high word with ones |
| `FloatBits.WidenLowBits` | pkg/runtime/arm/softfloat.c:189 | masking the widened exponent sum with 0x7ff keeps the 11 low bits of the int32 sum |
| `FloatBits.FexpRebias` | pkg/runtime/arm/softfloat.c:105-109 | `fexp` plus the bias 1023 is the exponent field |
| `FloatBits.FexpRange` | pkg/runtime/arm/softfloat.c:105-109 | `fexp` lies in [-1023, 1024] as an int32, and is -1023 exactly for a zero exponent field |
| `FloatBits.FsignBit` | pkg/runtime/arm/softfloat.c:111-115 | `fsign` is 0 or 1, and 1 exactly for patterns with bit 63 set |
| `FloatBits.FieldsReassemble` | pkg/runtime/arm/softfloat.c:105-121 | sign, exponent field and fraction fit their widths and or together into the original pattern |
| `FloatBits.S2DFields` | pkg/runtime/arm/softfloat.c:140-146 | a converted single has sign 0, exponent field e + 896 and the 23 fraction bits moved up by 29 |
| `FloatBits.D2SSign` | pkg/runtime/arm/softfloat.c:132-138 | bit 31 of the truncated single is the sign of the double |
| `FloatBits.D2SExponent` | pkg/runtime/arm/softfloat.c:132-138 | the single's exponent field is the unbiased exponent plus 127, modulo 256 |
| `FloatBits.D2SMantissa` | pkg/runtime/arm/softfloat.c:132-138 | the single's fraction is bits 29..51 of the double |
| `FloatBits.SingleRoundTrip` | pkg/runtime/arm/softfloat.c:132-146 | `d2s(s2d(s))` is `s` with the sign bit cleared |
| `FloatBits.SingleRoundTripPositive` | pkg/runtime/arm/softfloat.c:132-146 | a single with a clear sign bit survives `s2d` then `d2s` unchanged |
| `FloatBits.DoubleRoundTrip` | pkg/runtime/arm/softfloat.c:132-146 | `s2d(d2s(d))` has sign 0, the fraction of `d` without its low 29 bits, and the exponent of `d` whenever it is in binary32 range |
| `FloatBits.Significand` | pkg/runtime/arm/softfloat.c:181-182 | the 32-bit significand has its leading one in bit 31 |
| `FloatBits.ProductFits` | pkg/runtime/arm/softfloat.c:181-184 | the exact integer product of two significands lies in [2^62, 2^64) |
| `FloatBits.Fraction` | pkg/runtime/arm/softfloat.c:184-188 | the normalised fraction fits in 52 bits |
| `FloatBits.Pack` | pkg/runtime/arm/softfloat.c:191 | the packed pattern has the given sign, exponent and fraction, each cut to its field |
| `FloatBits.MufSign` | pkg/runtime/arm/softfloat.c:190-191 | the sign of a `muf` result is the exclusive or of the operands' signs |
| `FloatBits.MufExponent` | pkg/runtime/arm/softfloat.c:184-191 | the exponent field of a `muf` result is fexp(x) + fexp(y) + (carry into bit 63) + 1023, modulo 2048 |
| `FloatBits.ProductAtLeast` | pkg/runtime/arm/softfloat.c:181-183 | the 64-bit product `f0*f1` of two significands is at least 2^62 |
| `FloatBits.LeadingOne` | pkg/runtime/arm/softfloat.c:184-188 | a doubleword of at least 2^62 with `high` clear has bit 62 set |
| `FloatBits.ProductLeadingOne` | pkg/runtime/arm/softfloat.c:181-188 | the leading one of the significand product is bit 63 when `high` is set and bit 62 otherwise |
| `FloatBits.MufMantissa` | pkg/runtime/arm/softfloat.c:181-191 | the fraction of a `muf` result is the shifted product of lines 185-188, and when `high` is clear bit 62 of the product is set, so the fraction is the 52 bits below the leading one |
| `FloatBits.MufByOne` | pkg/runtime/arm/softfloat.c:177-193 | `muf` by the constant 1.0 returns the operand with its low 21 fraction bits cleared |
| `FloatBits.MufCommutes` | pkg/runtime/arm/softfloat.c:177-193 | `muf` is commutative |
| `FloatBits.MagnitudeEqualExponents` | pkg/runtime/arm/softfloat.c:264-273 | with equal exponents the mantissas decide: C if the first is larger, N otherwise |
| `FloatBits.SignedComparePositive` | pkg/runtime/arm/softfloat.c:241-262 | with both signs clear the magnitude test runs on the operands unswapped |
| `FloatBits.MagnitudeOfWords` | pkg/runtime/arm/softfloat.c:252-273 | on uint32 operands the exponents are equal and the mantissa test is the unsigned comparison of the words |
| `FloatBits.SignedCompareUnsigned` | pkg/runtime/arm/softfloat.c:241-273 | on uint32 operands the sign, exponent and mantissa steps together give C for greater and N for less |
| `FloatBits.CompareWordsUnsigned` | pkg/runtime/arm/softfloat.c:234-273 | `cmf` on its uint32 variables is the unsigned three-way comparison in the flag encoding |
| `FloatBits.CompareFlagsLowWords` | pkg/runtime/arm/softfloat.c:229-273 | the flags of `cmf` are Z and C when the low words are equal, C when the left one is larger, N otherwise |
| `FloatBits.CompareFlagsSwap` | pkg/runtime/arm/softfloat.c:229-273 | swapping the operands of a C result gives N |
| `FloatBits.CompareOneWithZero` | pkg/runtime/arm/softfloat.c:234-237 | 1.0 and 0.0 compare equal, since their low words are both 0 |
| `FloatBits.UnsignedFlagsCases` | pkg/runtime/arm/softfloat.c:217-220 | the flag word is one of Z and C, C, or N |
| `FloatBits.UnsignedFlagsSwapEqual` | pkg/runtime/arm/softfloat.c:236-237 | the equal result does not depend on the operand order |
| `FloatBits.UnsignedFlagsSwap` | pkg/runtime/arm/softfloat.c:264-273 | a greater result becomes a less result when the operands swap |
| `Mem.Load32Store32` | pkg/runtime/arm/softfloat.c:318-323 | a word reads back as stored |
| `Mem.Load64Store64` | pkg/runtime/arm/softfloat.c:316-321 | a doubleword reads back as stored |
| `Mem.Store32Frame` | pkg/runtime/arm/softfloat.c:323 | a word store changes no byte outside its four |
| `Mem.Store64Frame` | pkg/runtime/arm/softfloat.c:321 | a doubleword store changes no byte outside its eight |
| `Mem.Load64Words` | pkg/runtime/arm/softfloat.c:316 | a doubleword is the word at its address below the word four bytes up |
| `Fpa.Dest` | pkg/runtime/arm/softfloat.c:163 | the destination field names one of the eight FPA registers |
| `Fpa.Lhs` | pkg/runtime/arm/softfloat.c:164 | the left operand field names one of the eight FPA registers |
| `FpaProps.DataProcessFaults` | pkg/runtime/arm/softfloat.c:160-215 | `dataprocess` aborts exactly when the precision is invalid or the operation is neither unary `mvf` nor binary `muf` |
| `FpaProps.DataProcessFaultWritesNothing` | pkg/runtime/arm/softfloat.c:167-174 | an aborting `dataprocess` leaves the machine as it was |
| `FpaProps.DataProcessFrame` | pkg/runtime/arm/softfloat.c:168-197 | `dataprocess` writes no general register, no memory and no FPA register but the destination |
| `FpaProps.Mvf` | pkg/runtime/arm/softfloat.c:168-172 | `mvf` succeeds and puts the right operand into the destination |
| `FpaProps.MufInstruction` | pkg/runtime/arm/softfloat.c:177-193 | `muf` succeeds and puts the product of the left register and the right operand into the destination |
| `FpaProps.MufByConstantOne` | pkg/runtime/arm/softfloat.c:177-193 | `muf` with right operand #1.0 stores the left register with its low 21 fraction bits cleared |
| `FpaProps.DataProcessIgnoresPrecision` | pkg/runtime/arm/softfloat.c:81-93 | single and double precision (bit 7) give the same result: the precision is decoded but not used |
| `FpaProps.CompareKeepsLowBits` | pkg/runtime/arm/softfloat.c:283 | `cmf` keeps the low 28 bits of the saved CPSR |
| `FpaProps.CompareSetsFlags` | pkg/runtime/arm/softfloat.c:229-283 | the top four bits of the new CPSR are the unsigned comparison of the operands' low words |
| `FpaProps.CompareFrame` | pkg/runtime/arm/softfloat.c:223-284 | `cmf` writes no FPA register, no memory and no general register but the CPSR |
| `FpaProps.LoadStoreFaults` | pkg/runtime/arm/softfloat.c:304-307 | `loadstore` aborts exactly when coprocessor, pre-index, write-back, length or base register checks fail |
| `FpaProps.LoadStoreFaultWritesNothing` | pkg/runtime/arm/softfloat.c:304-307 | an aborting `loadstore` leaves the machine as it was |
| `FpaProps.TlenAtMostOne` | pkg/runtime/arm/softfloat.c:298 | the length as built is 0 or 1, so its `> 1` check never fires |
| `FpaProps.TlenOfAcceptedTransfer` | pkg/runtime/arm/softfloat.c:298-305 | for an accepted transfer the length is bit 15 |
| `FpaProps.OffsetRange` | pkg/runtime/arm/softfloat.c:302 | the offset is a multiple of 4 and at most 1020 |
| `FpaProps.LoadFrame` | pkg/runtime/arm/softfloat.c:314-318 | a load writes no general register, no memory and no FPA register but the one transferred |
| `FpaProps.StoreKeepsRegisters` | pkg/runtime/arm/softfloat.c:319-323 | a store writes no register |
| `FpaProps.LoadSingleState` | pkg/runtime/arm/softfloat.c:309-318 | an accepted single load puts `s2d` of the word at base ± offset into the register |
| `FpaProps.LoadDoubleState` | pkg/runtime/arm/softfloat.c:309-316 | an accepted double load puts the doubleword at base ± offset into the register |
| `FpaProps.StoreSingleState` | pkg/runtime/arm/softfloat.c:309-323 | an accepted single store writes `d2s` of the register at base ± offset |
| `FpaProps.StoreDoubleState` | pkg/runtime/arm/softfloat.c:309-321 | an accepted double store writes the register at base ± offset |
| `FpaProps.SameAddress` | pkg/runtime/arm/softfloat.c:309-312 | two transfers with the same base register, direction and offset over the same registers address the same word |
| `FpaProps.StoreSingleFrame` | pkg/runtime/arm/softfloat.c:323 | a single store changes no byte outside its four |
| `FpaProps.StoreDoubleFrame` | pkg/runtime/arm/softfloat.c:321 | a double store changes no byte outside its eight |
| `FpaProps.StoreSingleWrites` | pkg/runtime/arm/softfloat.c:323 | after a single store the word at the address is `d2s` of the register |
| `FpaProps.DoubleStoreLoad` | pkg/runtime/arm/softfloat.c:314-321 | a double store followed by a double load from the same address gives back the stored register |
| `FpaProps.SingleStoreLoad` | pkg/runtime/arm/softfloat.c:314-323 | a single store followed by a single load from the same address gives `s2d(d2s(x))` of the stored register |
| `FpaProps.LoadStoreKeepsRegs` | pkg/runtime/arm/softfloat.c:287-344 | `loadstore` never writes a general register |
| `FpaProps.LoadConstFaults` | pkg/runtime/arm/softfloat.c:352-361 | `loadconst` aborts exactly when its guard rejects the words or the transfer in the third word is rejected |
| `FpaProps.LoadConstGuardAsWritten` | pkg/runtime/arm/softfloat.c:352-355 | the guard tests bit 0 of the first and third words and the whole second word |
| `FpaProps.LoadConstAcceptsNonLoad` | pkg/runtime/arm/softfloat.c:352-355 | the guard accepts the first word 0x0500_0000, which is no `ldr` but has the signature 0x50d that `stepflt` dispatches to `loadconst`, followed by an accepted transfer |
| `FpaProps.LoadConstAccepted` | pkg/runtime/arm/softfloat.c:357-361 | an accepted sequence is the transfer of the third word after r11 is set |
| `FpaProps.AddR12Writes` | pkg/runtime/arm/softfloat.c:360 | r11 gets the constant plus r12, and no other register changes |
| `FpaProps.LoadConstRegs` | pkg/runtime/arm/softfloat.c:357-361 | after an accepted sequence the registers are the old ones with r11 set to the pc-relative constant plus r12 |
| `FpaProps.LoadConstFrame` | pkg/runtime/arm/softfloat.c:346-373 | `loadconst` writes no general register but r11 |
| `FpaProps.StepTransfer` | pkg/runtime/arm/softfloat.c:387-389 | a class 6 word is a transfer of one word |
| `FpaProps.StepSwi` | pkg/runtime/arm/softfloat.c:391 | a class 7 word with bit 24 set consumes nothing and changes nothing |
| `FpaProps.StepBadCompare` | pkg/runtime/arm/softfloat.c:393-397 | a class 7 transfer-type word without the `cmf` pattern aborts |
| `FpaProps.StepCompare` | pkg/runtime/arm/softfloat.c:393-398 | a class 7 word with the `cmf` pattern is one compare |
| `FpaProps.StepData` | pkg/runtime/arm/softfloat.c:399-402 | a class 7 word with bits 24 and 4 clear is one data operation |
| `FpaProps.StepConst` | pkg/runtime/arm/softfloat.c:405-411 | outside classes 6 and 7, signature 0x50d is a three-word constant load |
| `FpaProps.StepOther` | pkg/runtime/arm/softfloat.c:405-414 | any other word consumes nothing and changes nothing |
| `FpaProps.StepWords` | pkg/runtime/arm/softfloat.c:378-415 | `stepflt` consumes 0, 1 or 3 words |
| `FpaProps.StepNoWordNoChange` | pkg/runtime/arm/softfloat.c:378-415 | a step that consumes no word leaves the machine untouched |
| `FpaProps.StepStops` | pkg/runtime/arm/softfloat.c:386-414 | `stepflt` consumes no word exactly at an SWI or at a word outside classes 6 and 7 without signature 0x50d |
| `FpaProps.StepThreeWords` | pkg/runtime/arm/softfloat.c:405-412 | three words are consumed exactly for signature 0x50d outside classes 6 and 7 |
| `FpaProps.StepComparePattern` | pkg/runtime/arm/softfloat.c:393-398 | a class 7 word with bit 4 set and bit 24 clear aborts exactly when it lacks the `cmf` pattern |
| `FpaProps.IterateStops` | pkg/runtime/arm/softfloat.c:424-427 | a loop that ends normally ends where the step succeeds and consumes no word |
| `FpaProps.IterateMoreFuel` | pkg/runtime/arm/softfloat.c:424-426 | a loop that ended within its step bound ends the same way under any larger bound |
| `FpaProps.SFloat2Stops` | pkg/runtime/arm/softfloat.c:417-428 | `_sfloat2` returns the first pc where `stepflt` finds no FPA instruction |
| `FpaProps.SFloat2AtNonFloat` | pkg/runtime/arm/softfloat.c:424-427 | at a non-FPA word `_sfloat2` returns that word's address with the machine untouched |
| `FpaProps.SFloat2Advances` | pkg/runtime/arm/softfloat.c:424-426 | after a successful step of `skip` words the loop goes on at `lr + skip` words from the new state |
| `FpaProps.SFloat2Aborts` | pkg/runtime/arm/softfloat.c:424 | a step that aborts ends the loop with the state at the abort |
| `FpaProps.SFloat2MoreFuel` | pkg/runtime/arm/softfloat.c:424-427 | a run that finishes within its step bound has the same result under every larger bound |
| `Emulator.Fpu.constructor` | pkg/runtime/arm/softfloat.c:417-423 | the emulator starts in the given machine state |
| `Emulator.Fpu.DataProcess` | pkg/runtime/arm/softfloat.c:149-215 | updating `freg` in place reaches the outcome of `Fpa.DataProcess`, aborting exactly when it aborts |
| `Emulator.Fpu.Compare` | pkg/runtime/arm/softfloat.c:223-284 | updating the saved CPSR in place reaches the state `Fpa.Compare` gives |
| `Emulator.Fpu.LoadStore` | pkg/runtime/arm/softfloat.c:287-344 | the in-place transfer reaches the outcome of `Fpa.LoadStore` and keeps both arrays |
| `Emulator.Fpu.LoadConst` | pkg/runtime/arm/softfloat.c:346-373 | writing r11 then transferring reaches the outcome of `Fpa.LoadConst` |
| `Emulator.Fpu.StepFlt` | pkg/runtime/arm/softfloat.c:378-415 | returns the words consumed and the abort of `Fpa.StepFlt`, and reaches its state |
| `Emulator.Fpu.SFloat2` | pkg/runtime/arm/softfloat.c:417-428 | the loop returns the run `Fpa.SFloat2` gives and ends in its state |

## Left out

- Tracing and diagnostics are not modelled because they have no effect on the machine. This covers `printf`, `trace`, `fprint`, the name tables `opnames`, `fpconst` and `fpprec`, and the trace branches of each unit.
- `fabort` and `doabort` are modelled as the `Fault` outcome carrying the state at the abort. The process exit itself is outside the model.
- The global `m` (the thread's FPA state) is modelled as the `freg` field. `#pragma textflag 7` and the calling convention of `_sfloat2` are not modelled.
- In C, `regs` is the address of the saved registers (`&r0` in `_sfloat2`). Here it is a 16-word array field.
- Aliasing between memory and the register files is not modelled. In the runtime `m->freg` and the `&r0` register frame live in memory, so a store could overwrite them. Here memory writes never change `regs` or `freg`. Instructions are read from the same memory the transfers write, so a store over a later instruction is modelled.
- Memory is a total byte map. Alignment traps, unmapped addresses and the MMU are not modelled.
- `Emulator.Fpu.SFloat2`: the source loop has no bound. The model takes `fuel` steps at most, with an `OutOfFuel` result, because a Dafny loop must terminate.
- `FloatBits.ProductFits`: the bound is stated on the exact integer product. The 64-bit product is bounded below by `FloatBits.ProductAtLeast`, but that the 64-bit `f0*f1` equals the integer product (no wrap) is not proved, because relating `bvmul` to integer multiplication is out of the solver's reach.
- The real-number meaning of `muf` (nearness to the IEEE product) is not stated, because the source truncates and has no rounding or special cases to compare against.
- `FloatBits.CompareFlagsSwap`: only states that swapping a C result gives N. The N to C direction is not stated, because the totality of the `bv32` order (two distinct words, one of them larger) is out of the solver's reach. `FloatBits.UnsignedFlagsSwapEqual` covers the equal case only.
- `FloatBits.UnsignedFlagsSwap`: states the C to N direction only. N to C is not stated, for the same reason: `bv32` order totality is out of the solver's reach.
- `FpaProps.AddR12Writes`: states the value of r11 on the register sequence. The value of r11 after the whole `loadconst` is not stated separately. It follows from `FpaProps.LoadConstRegs`.
- The high words of the operands of `compare` never take part, exactly as in the source. No "intended" floating-point comparison is modelled.
