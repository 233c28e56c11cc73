/** vsrc/controller.sv: the control signals of one clock cycle, from stage code, latched instruction and flags. */
module Controller {
  import opened Words
  import opened Alu
  import opened Isa

  // Stage codes.
  const STAGE_RESET_INIT := 4          // 100
  const STAGE_FETCH_ADDRESS := 0       // 000
  const STAGE_FETCH_DECODE := 1        // 001
  const STAGE_EXECUTE_SINGLE := 3      // 011
  const STAGE_FETCH_SECOND_WORD := 5   // 101
  const STAGE_EXECUTE_DOUBLE := 7      // 111
  const STAGE_SAVE_RETURN_ADDRESS := 2 // 010
  const STAGE_LOAD_CALL_TARGET := 6    // 110

  // Bit 0 writes the register file, bit 1 writes the PC.
  const WRITEBACK_HOLD := 0
  const WRITEBACK_REG := 1
  const WRITEBACK_PC := 2

  const SST_WRITE := 0
  const SST_CLR_C := 1
  const SST_SET_C := 2
  const SST_HOLD := 3

  const CARRY_IN_ZERO := 0
  const CARRY_IN_ONE := 1
  const CARRY_IN_FLAG_C := 2

  const ADDRESS_HOLD := 0
  const ADDRESS_FROM_PC := 1
  const ADDRESS_FROM_ALU := 3

  datatype Control = Control(
    destReg: RegIndex,
    sourReg: RegIndex,
    offset: Byte,
    sst: nat,
    carryInSelect: nat,
    addressWriteSelect: nat,
    instructionLoadEnable: bool,
    aluFunc: nat,
    aluInSel: nat,
    writebackSelect: nat,
    wr: Bit)
  {
    predicate RegWriteEnable() { writebackSelect % 2 == 1 }
    predicate PcWriteEnable() { writebackSelect / 2 % 2 == 1 }
  }

  const DEFAULTS :=
    Control(0, 0, 0, SST_HOLD, CARRY_IN_ZERO, ADDRESS_HOLD, false, ALU_ADD, ALU_IN_REGS, WRITEBACK_HOLD, 1)

  function TakeIf(b: Bit): nat {
    if b == 1 then WRITEBACK_PC else WRITEBACK_HOLD
  }

  function TakeUnless(b: Bit): nat {
    if b == 1 then WRITEBACK_HOLD else WRITEBACK_PC
  }

  function ExecuteSingle(instruction: Word, f: Flags): Control {
    var d := DEFAULTS;
    var r := d.(destReg := DestField(instruction), sourReg := SourceField(instruction));
    var w := r.(sst := SST_WRITE, writebackSelect := WRITEBACK_REG);
    var b := d.(offset := Imm8(instruction), aluInSel := ALU_IN_BR);
    match Opcode(instruction)
    case 0x00 => w.(aluFunc := ALU_ADD)
    case 0x01 => w.(aluFunc := ALU_SUB)
    case 0x02 => w.(aluFunc := ALU_AND)
    case 0x03 => r.(sst := SST_WRITE, writebackSelect := WRITEBACK_HOLD, aluFunc := ALU_SUB)
    case 0x04 => w.(aluFunc := ALU_XOR)
    case 0x05 => r.(sst := SST_WRITE, writebackSelect := WRITEBACK_HOLD, aluFunc := ALU_AND)
    case 0x06 => w.(aluFunc := ALU_OR)
    case 0x07 => r.(writebackSelect := WRITEBACK_REG, aluInSel := ALU_IN_SR)
    case 0x08 => w.(carryInSelect := CARRY_IN_ONE, aluInSel := ALU_IN_DR, aluFunc := ALU_SUB)
    case 0x09 => w.(carryInSelect := CARRY_IN_ONE, aluInSel := ALU_IN_DR)
    case 0x0A => w.(aluInSel := ALU_IN_DR, aluFunc := ALU_SHL)
    case 0x0B => w.(aluInSel := ALU_IN_DR, aluFunc := ALU_SHR)
    case 0x0C => w.(carryInSelect := CARRY_IN_FLAG_C)
    case 0x0D => w.(carryInSelect := CARRY_IN_FLAG_C, aluFunc := ALU_SUB)
    case 0x0E => w.(aluInSel := ALU_IN_DR, aluFunc := ALU_NOT)
    case 0x0F => w.(aluInSel := ALU_IN_DR, aluFunc := ALU_ASR)
    case 0x40 => b.(writebackSelect := WRITEBACK_PC)
    case 0x44 => b.(writebackSelect := TakeIf(f.c))
    case 0x45 => b.(writebackSelect := TakeUnless(f.c))
    case 0x46 => b.(writebackSelect := TakeIf(f.z))
    case 0x47 => b.(writebackSelect := TakeUnless(f.z))
    case 0x41 => b.(writebackSelect := TakeIf(f.s))
    case 0x43 => b.(writebackSelect := TakeUnless(f.s))
    case 0x78 => d.(offset := Imm8(instruction), sst := SST_CLR_C)
    case 0x7A => d.(offset := Imm8(instruction), sst := SST_SET_C)
    case 0xF1 => d.(sourReg := LINK, writebackSelect := WRITEBACK_PC, aluInSel := ALU_IN_SR)
    case _ => d
  }

  function FetchSecondWord(instruction: Word): Control {
    var r := DEFAULTS.(destReg := DestField(instruction), sourReg := SourceField(instruction));
    var op := Opcode(instruction);
    if op == 0x80 || op == 0x81 || op == 0x84 || op == 0x85 || op == 0xF0 then
      r.(carryInSelect := CARRY_IN_ONE, writebackSelect := WRITEBACK_PC, aluInSel := ALU_IN_PC,
         addressWriteSelect := ADDRESS_FROM_PC)
    else if op == 0x82 then r.(aluInSel := ALU_IN_SR, addressWriteSelect := ADDRESS_FROM_ALU)
    else if op == 0x83 then r.(aluInSel := ALU_IN_DR, addressWriteSelect := ADDRESS_FROM_ALU)
    else r
  }

  function ExecuteDouble(instruction: Word): Control {
    var r := DEFAULTS.(destReg := DestField(instruction), sourReg := SourceField(instruction));
    match Opcode(instruction)
    case 0x82 => r.(writebackSelect := WRITEBACK_REG, aluInSel := ALU_IN_MEM)
    case 0x81 => r.(writebackSelect := WRITEBACK_REG, aluInSel := ALU_IN_MEM)
    case 0x80 => r.(writebackSelect := WRITEBACK_PC, aluInSel := ALU_IN_MEM)
    case 0x83 => r.(aluInSel := ALU_IN_SR, wr := 0)
    case 0x84 => r.(sst := SST_WRITE, writebackSelect := WRITEBACK_REG, aluInSel := ALU_IN_DR_MEM, aluFunc := ALU_ADD)
    case 0x85 => r.(sst := SST_WRITE, writebackSelect := WRITEBACK_REG, aluInSel := ALU_IN_DR_MEM, aluFunc := ALU_AND)
    case _ => r
  }

  function Signals(stage: nat, instruction: Word, f: Flags): Control {
    if stage == STAGE_FETCH_ADDRESS then
      DEFAULTS.(carryInSelect := CARRY_IN_ONE, writebackSelect := WRITEBACK_PC, aluInSel := ALU_IN_PC,
                addressWriteSelect := ADDRESS_FROM_PC)
    else if stage == STAGE_FETCH_DECODE then DEFAULTS.(instructionLoadEnable := true)
    else if stage == STAGE_EXECUTE_SINGLE then ExecuteSingle(instruction, f)
    else if stage == STAGE_FETCH_SECOND_WORD then FetchSecondWord(instruction)
    else if stage == STAGE_EXECUTE_DOUBLE then ExecuteDouble(instruction)
    else if stage == STAGE_SAVE_RETURN_ADDRESS then
      DEFAULTS.(destReg := LINK, writebackSelect := WRITEBACK_REG, aluInSel := ALU_IN_PC)
    else if stage == STAGE_LOAD_CALL_TARGET then
      DEFAULTS.(offset := Imm8(instruction), writebackSelect := WRITEBACK_PC, aluInSel := ALU_IN_BR)
    else DEFAULTS
  }
}
