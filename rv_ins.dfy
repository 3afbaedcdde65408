/** Encoders for the few RISC-V instructions the debugger injects into a
    halted hart: loads and stores (sections 2.6 and 5.3 of the RISC-V
    Unprivileged ISA), ADDI (section 2.4), EBREAK (section 2.8) and the CSR
    reads and writes of the Zicsr chapter.

    The arguments are Go `uint` values, modelled as `bv64`; an encoding is a
    `bv32` word. As in the source, arguments are not range-checked: a register
    number of 32 or more spills into the neighbouring fields, and the final
    conversion keeps the low 32 bits. */
module RiscV {

  // Major opcode in bits 6:0 and funct3 in bits 14:12.
  const opcodeLB: bv64 := 0x0000_0003
  const opcodeLH: bv64 := 0x0000_1003
  const opcodeLW: bv64 := 0x0000_2003
  const opcodeLD: bv64 := 0x0000_3003
  const opcodeSB: bv64 := 0x0000_0023
  const opcodeSH: bv64 := 0x0000_1023
  const opcodeSW: bv64 := 0x0000_2023
  const opcodeSD: bv64 := 0x0000_3023
  const opcodeADDI: bv64 := 0x0000_0013
  const opcodeEBREAK: bv64 := 0x0010_0073
  const opcodeCSRRW: bv64 := 0x0000_1073
  const opcodeCSRRS: bv64 := 0x0000_2073
  // Moves between integer and floating-point registers; no encoder here uses them.
  const opcodeFMV_X_W: bv64 := 0xe000_0053
  const opcodeFMV_W_X: bv64 := 0xf000_0053
  const opcodeFMV_D_X: bv64 := 0xf200_0053
  const opcodeFMV_X_D: bv64 := 0xe200_0053

  // Major opcodes (bits 6:0) of the instruction classes used here.
  const LOAD: bv32 := 0x03
  const STORE: bv32 := 0x23
  const OP_IMM: bv32 := 0x13
  const SYSTEM: bv32 := 0x73
  const OP_FP: bv32 := 0x53

  /** The zero register x0. */
  const RegZero: bv64 := 0

  /** Bits `msb` down to `lsb` of `x`, moved down to bit 0. */
  function Bits(x: bv64, msb: bv64, lsb: bv64): (r: bv64)
    requires lsb <= msb < 64
  {
    if msb - lsb == 63 then x >> lsb else (x >> lsb) & (((1 as bv64) << (msb - lsb + 1)) - 1)
  }

  /** Go's `uint32(x)`: the low 32 bits. */
  function Low32(x: bv64): bv32
  {
    (x & 0xffff_ffff) as bv32
  }

  // The fields of an encoded instruction word.
  function Opcode(w: bv32): bv32 { w & 0x7f }
  function Rd(w: bv32): bv32 { (w >> 7) & 0x1f }
  function Funct3(w: bv32): bv32 { (w >> 12) & 0x7 }
  function Rs1(w: bv32): bv32 { (w >> 15) & 0x1f }
  function Rs2(w: bv32): bv32 { (w >> 20) & 0x1f }
  /** The 12-bit immediate of an I-type word (also the CSR number). */
  function ImmI(w: bv32): bv32 { w >> 20 }
  /** The 12-bit immediate of an S-type word, reassembled from its two parts. */
  function ImmS(w: bv32): bv32 { ((w >> 25) << 5) | ((w >> 7) & 0x1f) }

  /** `w` is an I-type word with the given fields; `imm` is the low 12 bits of the offset. */
  predicate IsIType(w: bv32, opcode: bv32, funct3: bv32, rd: bv64, rs1: bv64, imm: bv64)
    requires rd < 32 && rs1 < 32
  {
    && Opcode(w) == opcode
    && Funct3(w) == funct3
    && Rd(w) == rd as bv32
    && Rs1(w) == rs1 as bv32
    && ImmI(w) == (imm & 0xfff) as bv32
  }

  /** `w` is an S-type word with the given fields. */
  predicate IsSType(w: bv32, funct3: bv32, rs2: bv64, rs1: bv64, imm: bv64)
    requires rs2 < 32 && rs1 < 32
  {
    && Opcode(w) == STORE
    && Funct3(w) == funct3
    && Rs2(w) == rs2 as bv32
    && Rs1(w) == rs1 as bv32
    && ImmS(w) == (imm & 0xfff) as bv32
  }

  function LoadWord(opcode: bv64, rd: bv64, ofs: bv64, rs1: bv64): bv32
  {
    Low32((Bits(ofs, 11, 0) << 20) | (rs1 << 15) | (rd << 7) | opcode)
  }

  function StoreWord(opcode: bv64, rs2: bv64, ofs: bv64, rs1: bv64): bv32
  {
    Low32((Bits(ofs, 11, 5) << 25) | (rs2 << 20) | (rs1 << 15) | (Bits(ofs, 4, 0) << 7) | opcode)
  }

  /** ld rd, ofs(rs1) */
  function InsLD(rd: bv64, ofs: bv64, rs1: bv64): (w: bv32)
    ensures rd < 32 && rs1 < 32 ==> IsIType(w, LOAD, 3, rd, rs1, ofs)
  {
    LoadWord(opcodeLD, rd, ofs, rs1)
  }

  /** lw rd, ofs(rs1) */
  function InsLW(rd: bv64, ofs: bv64, rs1: bv64): (w: bv32)
    ensures rd < 32 && rs1 < 32 ==> IsIType(w, LOAD, 2, rd, rs1, ofs)
  {
    LoadWord(opcodeLW, rd, ofs, rs1)
  }

  /** lh rd, ofs(rs1) */
  function InsLH(rd: bv64, ofs: bv64, rs1: bv64): (w: bv32)
    ensures rd < 32 && rs1 < 32 ==> IsIType(w, LOAD, 1, rd, rs1, ofs)
  {
    LoadWord(opcodeLH, rd, ofs, rs1)
  }

  /** lb rd, ofs(rs1) */
  function InsLB(rd: bv64, ofs: bv64, rs1: bv64): (w: bv32)
    ensures rd < 32 && rs1 < 32 ==> IsIType(w, LOAD, 0, rd, rs1, ofs)
  {
    LoadWord(opcodeLB, rd, ofs, rs1)
  }

  /** sd rs2, ofs(rs1) */
  function InsSD(rs2: bv64, ofs: bv64, rs1: bv64): (w: bv32)
    ensures rs2 < 32 && rs1 < 32 ==> IsSType(w, 3, rs2, rs1, ofs)
  {
    StoreWord(opcodeSD, rs2, ofs, rs1)
  }

  /** sw rs2, ofs(rs1) */
  function InsSW(rs2: bv64, ofs: bv64, rs1: bv64): (w: bv32)
    ensures rs2 < 32 && rs1 < 32 ==> IsSType(w, 2, rs2, rs1, ofs)
  {
    StoreWord(opcodeSW, rs2, ofs, rs1)
  }

  /** sh rs2, ofs(rs1) */
  function InsSH(rs2: bv64, ofs: bv64, rs1: bv64): (w: bv32)
    ensures rs2 < 32 && rs1 < 32 ==> IsSType(w, 1, rs2, rs1, ofs)
  {
    StoreWord(opcodeSH, rs2, ofs, rs1)
  }

  /** sb rs2, ofs(rs1) */
  function InsSB(rs2: bv64, ofs: bv64, rs1: bv64): (w: bv32)
    ensures rs2 < 32 && rs1 < 32 ==> IsSType(w, 0, rs2, rs1, ofs)
  {
    StoreWord(opcodeSB, rs2, ofs, rs1)
  }

  /** addi rd, rs1, imm */
  function InsADDI(rd: bv64, rs1: bv64, imm: bv64): (w: bv32)
    ensures rd < 32 && rs1 < 32 ==> IsIType(w, OP_IMM, 0, rd, rs1, imm)
  {
    Low32((Bits(imm, 11, 0) << 20) | (rs1 << 15) | (rd << 7) | opcodeADDI)
  }

  /** ebreak: a SYSTEM word with funct12 = 1 and every register field zero. */
  function InsEBREAK(): (w: bv32)
    ensures IsIType(w, SYSTEM, 0, 0, 0, 1)
  {
    Low32(opcodeEBREAK)
  }

  /** csrr rd, csr, that is csrrs rd, csr, x0 */
  function InsCSRR(rd: bv64, csr: bv64): (w: bv32)
    ensures rd < 32 && csr < 4096 ==> IsIType(w, SYSTEM, 2, rd, RegZero, csr)
  {
    Low32((csr << 20) | (RegZero << 15) | (rd << 7) | opcodeCSRRS)
  }

  /** csrw csr, rs1, that is csrrw x0, csr, rs1 */
  function InsCSRW(csr: bv64, rs1: bv64): (w: bv32)
    ensures rs1 < 32 && csr < 4096 ==> IsIType(w, SYSTEM, 1, RegZero, rs1, csr)
  {
    Low32((csr << 20) | (rs1 << 15) | (RegZero << 7) | opcodeCSRRW)
  }

  /** Only the low 12 bits of a load offset are encoded. */
  lemma OffsetLow12Loads(r: bv64, ofs: bv64, rs1: bv64)
    ensures InsLD(r, ofs, rs1) == InsLD(r, ofs % 4096, rs1)
    ensures InsLW(r, ofs, rs1) == InsLW(r, ofs % 4096, rs1)
    ensures InsLH(r, ofs, rs1) == InsLH(r, ofs % 4096, rs1)
    ensures InsLB(r, ofs, rs1) == InsLB(r, ofs % 4096, rs1)
  {
    LoadWordLow12(opcodeLD, r, ofs, rs1);
    LoadWordLow12(opcodeLW, r, ofs, rs1);
    LoadWordLow12(opcodeLH, r, ofs, rs1);
    LoadWordLow12(opcodeLB, r, ofs, rs1);
  }

  /** Only the low 12 bits of a store offset are encoded. */
  lemma OffsetLow12Stores(r: bv64, ofs: bv64, rs1: bv64)
    ensures InsSD(r, ofs, rs1) == InsSD(r, ofs % 4096, rs1)
    ensures InsSW(r, ofs, rs1) == InsSW(r, ofs % 4096, rs1)
    ensures InsSH(r, ofs, rs1) == InsSH(r, ofs % 4096, rs1)
    ensures InsSB(r, ofs, rs1) == InsSB(r, ofs % 4096, rs1)
  {
    StoreWordLow12(opcodeSD, r, ofs, rs1);
    StoreWordLow12(opcodeSW, r, ofs, rs1);
    StoreWordLow12(opcodeSH, r, ofs, rs1);
    StoreWordLow12(opcodeSB, r, ofs, rs1);
  }

  /** Only the low 12 bits of an ADDI immediate are encoded. */
  lemma OffsetLow12Addi(r: bv64, ofs: bv64, rs1: bv64)
    ensures InsADDI(r, rs1, ofs) == InsADDI(r, rs1, ofs % 4096)
  {
    BitsBelow12(ofs);
  }

  lemma LoadWordLow12(opcode: bv64, rd: bv64, ofs: bv64, rs1: bv64)
    ensures LoadWord(opcode, rd, ofs, rs1) == LoadWord(opcode, rd, ofs % 4096, rs1)
  {
    BitsBelow12(ofs);
  }

  lemma StoreWordLow12(opcode: bv64, rs2: bv64, ofs: bv64, rs1: bv64)
    ensures StoreWord(opcode, rs2, ofs, rs1) == StoreWord(opcode, rs2, ofs % 4096, rs1)
  {
    BitsBelow12(ofs);
  }

  /** The bit ranges of an offset that the encoders use lie in its low 12 bits. */
  lemma BitsBelow12(ofs: bv64)
    ensures Bits(ofs, 11, 0) == Bits(ofs % 4096, 11, 0)
    ensures Bits(ofs, 11, 5) == Bits(ofs % 4096, 11, 5)
    ensures Bits(ofs, 4, 0) == Bits(ofs % 4096, 4, 0)
  {
    assert ofs % 4096 == ofs & 0xfff;
  }

  /** The opcode constants carry the major opcode in bits 6:0 and the access
      width (log2 of the byte count) as funct3 in bits 14:12. */
  lemma OpcodeConstants()
    ensures Opcode(Low32(opcodeLB)) == LOAD && Funct3(Low32(opcodeLB)) == 0
    ensures Opcode(Low32(opcodeLH)) == LOAD && Funct3(Low32(opcodeLH)) == 1
    ensures Opcode(Low32(opcodeLW)) == LOAD && Funct3(Low32(opcodeLW)) == 2
    ensures Opcode(Low32(opcodeLD)) == LOAD && Funct3(Low32(opcodeLD)) == 3
    ensures Opcode(Low32(opcodeSB)) == STORE && Funct3(Low32(opcodeSB)) == 0
    ensures Opcode(Low32(opcodeSH)) == STORE && Funct3(Low32(opcodeSH)) == 1
    ensures Opcode(Low32(opcodeSW)) == STORE && Funct3(Low32(opcodeSW)) == 2
    ensures Opcode(Low32(opcodeSD)) == STORE && Funct3(Low32(opcodeSD)) == 3
    ensures Opcode(Low32(opcodeADDI)) == OP_IMM && Funct3(Low32(opcodeADDI)) == 0
    ensures Opcode(Low32(opcodeCSRRW)) == SYSTEM && Funct3(Low32(opcodeCSRRW)) == 1
    ensures Opcode(Low32(opcodeCSRRS)) == SYSTEM && Funct3(Low32(opcodeCSRRS)) == 2
    ensures Opcode(Low32(opcodeEBREAK)) == SYSTEM && Funct3(Low32(opcodeEBREAK)) == 0
    ensures Opcode(Low32(opcodeFMV_X_W)) == OP_FP && Funct3(Low32(opcodeFMV_X_W)) == 0
    ensures Opcode(Low32(opcodeFMV_W_X)) == OP_FP && Funct3(Low32(opcodeFMV_W_X)) == 0
    ensures Opcode(Low32(opcodeFMV_D_X)) == OP_FP && Funct3(Low32(opcodeFMV_D_X)) == 0
    ensures Opcode(Low32(opcodeFMV_X_D)) == OP_FP && Funct3(Low32(opcodeFMV_X_D)) == 0
  {
  }
}
