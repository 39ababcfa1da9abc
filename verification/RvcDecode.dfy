/**
 Decoding of 16-bit instructions: the first matching pattern in the source's
 order, and the operand fields of its format.
 */
module RvcDecode {
  import opened Bits
  import opened Wrappers

  // ----- The shapes of the rows -------------------------------------------------------

  // "fff ??????????? oo"
  predicate Funct3(c: U16, op: nat, f3: nat) { c % 4 == op && c / 8192 == f3 }

  // "fff ?ddddd????? 01"
  predicate Funct3Rd(c: U16, f3: nat, rd: nat) { c % 4 == 1 && c / 8192 == f3 && c / 128 % 32 == rd }

  // "100 ?ff???????? 01"
  predicate Funct2(c: U16, f2: nat) { c % 4 == 1 && c / 8192 == 4 && c / 1024 % 4 == f2 }

  // "fff fff???gg??? 01"
  predicate Funct6(c: U16, f6: nat, f2: nat) { c % 4 == 1 && c / 1024 == f6 && c / 32 % 4 == f2 }

  // "fff f?????????? 10"
  predicate Funct4(c: U16, f4: nat) { c % 4 == 2 && c / 4096 == f4 }

  // "fff f?????00000 10"
  predicate Funct4Zero(c: U16, f4: nat) { c % 128 == 2 && c / 4096 == f4 }

  // A pattern without free positions
  predicate Exactly(c: U16, v: U16) { c == v }

  // ----- The table ------------------------------------------------------------------------

  datatype Name =
    | CNop | CAddi | CAddiw | CLi | CAddi16sp | CLui | CSrli | CSrai | CAndi
    | CSub | CXor | COr | CAnd | CSubw | CAddw | CJ | CBeqz | CBnez
    | CInv | CAddi4spn | CFld | CLw | CLd | CFsd | CSw | CSd
    | CSlli | CFldsp | CLwsp | CLdsp | CJr | CMv | CEbreak | CJalr | CAdd | CFsdsp | CSwsp | CSdsp
    | Inv

  datatype Format = FCR | FCI | FCSS | FCIW | FCL | FCS | FCA | FCB | FCJ | FN

  // The table in the source's order, in blocks
  function ImmRows(c: U16): Option<Name> {
    if Funct3Rd(c, 0, 0) then Some(CNop)
    else if Funct3(c, 1, 0) then Some(CAddi)
    else if Funct3(c, 1, 1) then Some(CAddiw)
    else if Funct3(c, 1, 2) then Some(CLi)
    else if Funct3Rd(c, 3, 2) then Some(CAddi16sp)
    else if Funct3(c, 1, 3) then Some(CLui)
    else if Funct2(c, 0) then Some(CSrli)
    else if Funct2(c, 1) then Some(CSrai)
    else if Funct2(c, 2) then Some(CAndi)
    else None
  }

  function AluRows(c: U16): Option<Name> {
    if Funct6(c, 0x23, 0) then Some(CSub)
    else if Funct6(c, 0x23, 1) then Some(CXor)
    else if Funct6(c, 0x23, 2) then Some(COr)
    else if Funct6(c, 0x23, 3) then Some(CAnd)
    else if Funct6(c, 0x27, 0) then Some(CSubw)
    else if Funct6(c, 0x27, 1) then Some(CAddw)
    else if Funct3(c, 1, 5) then Some(CJ)
    else if Funct3(c, 1, 6) then Some(CBeqz)
    else if Funct3(c, 1, 7) then Some(CBnez)
    else None
  }

  function MemoryRows(c: U16): Option<Name> {
    if Exactly(c, 0) then Some(CInv)
    else if Funct3(c, 0, 0) then Some(CAddi4spn)
    else if Funct3(c, 0, 1) then Some(CFld)
    else if Funct3(c, 0, 2) then Some(CLw)
    else if Funct3(c, 0, 3) then Some(CLd)
    else if Funct3(c, 0, 5) then Some(CFsd)
    else if Funct3(c, 0, 6) then Some(CSw)
    else if Funct3(c, 0, 7) then Some(CSd)
    else None
  }

  function StackRows(c: U16): Option<Name> {
    if Funct3(c, 2, 0) then Some(CSlli)
    else if Funct3(c, 2, 1) then Some(CFldsp)
    else if Funct3(c, 2, 2) then Some(CLwsp)
    else if Funct3(c, 2, 3) then Some(CLdsp)
    else if Funct4Zero(c, 8) then Some(CJr)
    else if Funct4(c, 8) then Some(CMv)
    else None
  }

  function RegisterRows(c: U16): Option<Name> {
    if Exactly(c, 0x9002) then Some(CEbreak)
    else if Funct4Zero(c, 9) then Some(CJalr)
    else if Funct4(c, 9) then Some(CAdd)
    else if Funct3(c, 2, 5) then Some(CFsdsp)
    else if Funct3(c, 2, 6) then Some(CSwsp)
    else if Funct3(c, 2, 7) then Some(CSdsp)
    else None
  }

  // The first row of the table that matches; the last row matches every word.
  function NameOf(c: U16): Name {
    var imm, alu, mem, stack, reg := ImmRows(c), AluRows(c), MemoryRows(c), StackRows(c), RegisterRows(c);
    if imm.Some? then imm.value
    else if alu.Some? then alu.value
    else if mem.Some? then mem.value
    else if stack.Some? then stack.value
    else if reg.Some? then reg.value
    else Inv
  }

  function FormatOf(n: Name): Format {
    match n
    case CJr | CMv | CEbreak | CJalr | CAdd => FCR
    case CNop | CAddi | CAddiw | CLi | CAddi16sp | CLui | CSlli | CFldsp | CLwsp | CLdsp => FCI
    case CFsdsp | CSwsp | CSdsp => FCSS
    case CAddi4spn => FCIW
    case CFld | CLw | CLd => FCL
    case CFsd | CSw | CSd => FCS
    case CSub | CXor | COr | CAnd | CSubw | CAddw => FCA
    case CSrli | CSrai | CAndi | CBeqz | CBnez => FCB
    case CJ => FCJ
    case CInv | Inv => FN
  }

  // ----- Operands ---------------------------------------------------------------------------

  type Reg = x: int | 0 <= x < 32

  datatype Operands = Operands(rd: Reg, rs1: Reg, rs2: Reg, imm: int)

  // sext(x, n), where sign == 2^(n - 1)
  function Sext(x: nat, sign: nat): int { if x < sign then x else x - 2 * sign }

  // bits(c, 12, 12) << 5 | bits(c, 6, 2): fields that do not overlap add up.
  function Imm6(c: U16): nat { c / 4096 % 2 * 32 + c / 4 % 32 }

  function ImmCI(c: U16): int {
    var f3, op, rd := c / 8192 % 8, c % 4, c / 128 % 32;
    if op == 1 then
      if f3 == 3 && rd == 2 then
        Sext(c / 4096 % 2 * 512 + c / 8 % 4 * 128 + c / 32 % 2 * 64 + c / 4 % 2 * 32 + c / 64 % 2 * 16, 512)
      else if f3 == 3 && rd != 0 then Sext(c / 4096 % 2 * 0x2_0000 + c / 4 % 32 * 4096, 0x2_0000)
      else Sext(Imm6(c), 32)
    else if op == 2 then
      if f3 == 0 then Imm6(c)
      else if f3 == 2 then c / 4 % 4 * 64 + c / 4096 % 2 * 32 + c / 16 % 8 * 4
      else if f3 == 3 || f3 == 1 then c / 4 % 8 * 64 + c / 4096 % 2 * 32 + c / 32 % 4 * 8
      else Sext(Imm6(c), 32)
    else Sext(Imm6(c), 32)
  }

  function ImmCSS(c: U16): int {
    var f3 := c / 8192 % 8;
    if f3 == 6 then c / 128 % 4 * 64 + c / 512 % 16 * 4
    else if f3 == 7 || f3 == 5 then c / 128 % 8 * 64 + c / 1024 % 8 * 8
    else 0
  }

  function ImmCIW(c: U16): int {
    c / 128 % 16 * 64 + c / 2048 % 4 * 16 + c / 32 % 2 * 8 + c / 64 % 2 * 4
  }

  // CL and CS share their immediate fields.
  function ImmWord(c: U16): int { c / 32 % 2 * 64 + c / 1024 % 8 * 8 + c / 64 % 2 * 4 }
  function ImmDouble(c: U16): int { c / 32 % 4 * 64 + c / 1024 % 8 * 8 }

  function ImmCB(c: U16): int {
    if c / 8192 % 8 == 4 then
      if c / 1024 % 4 == 2 then Sext(Imm6(c), 32) else Imm6(c)
    else
      Sext(c / 4096 % 2 * 256 + c / 32 % 4 * 64 + c / 4 % 2 * 32 + c / 1024 % 4 * 8 + c / 8 % 4 * 2, 256)
  }

  function ImmCJ(c: U16): int {
    Sext(c / 4096 % 2 * 2048 + c / 2048 % 2 * 16 + c / 512 % 4 * 256 + c / 256 % 2 * 1024
         + c / 128 % 2 * 64 + c / 64 % 2 * 128 + c / 8 % 8 * 2 + c / 4 % 2 * 32, 2048)
  }

  // The switch of decode_operand_16 reaches std::unreachable() only for a CL or
  // CS row with one of these values of funct3.
  predicate Reachable(f: Format, c: U16) {
    && (f == FCL ==> c / 8192 % 8 in {1, 2, 3})
    && (f == FCS ==> c / 8192 % 8 in {5, 6, 7})
  }

  // Fields the switch leaves alone are 0 here; no execute function reads them.
  function OperandsOf(f: Format, c: U16): Operands
    requires Reachable(f, c)
  {
    var rdFull, rs2Full := c / 128 % 32, c / 4 % 32;
    var low, high := c / 4 % 8 + 8, c / 128 % 8 + 8;
    match f
    case FCR => Operands(rdFull, rdFull, rs2Full, 0)
    case FCI => Operands(rdFull, rdFull, 0, ImmCI(c))
    case FCSS => Operands(0, 2, rs2Full, ImmCSS(c))
    case FCIW => Operands(low, 2, 0, ImmCIW(c))
    case FCL => Operands(low, high, 0, if c / 8192 % 8 == 2 then ImmWord(c) else ImmDouble(c))
    case FCS => Operands(0, high, low, if c / 8192 % 8 == 6 then ImmWord(c) else ImmDouble(c))
    case FCA => Operands(high, high, low, 0)
    case FCB => Operands(high, high, 0, ImmCB(c))
    case FCJ => Operands(0, 0, 0, ImmCJ(c))
    case FN => Operands(0, 0, 0, 0)
  }

  // Every 16-bit word selects a row, and no word reaches an arm the source
  // marks unreachable.
  lemma DecodeIsTotal(c: U16)
    ensures Reachable(FormatOf(NameOf(c)), c)
  {
  }
}
