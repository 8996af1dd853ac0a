/** Instruction decoding: the chain of masked comparisons at the heart of the
    main loop, separated from execution. A test `(instr & 0xF000) == 0xH000`
    is written `Hi(op) == H`, `(instr & 0xF00F) == 0xH00N` is written
    `Hi(op) == H && N(op) == N`, and `(instr & 0xF0FF) == 0xH0KK` is written
    `Hi(op) == H && KK(op) == KK`. */
module Decoder {
  import opened Bytes

  /** A 4-bit opcode field (a register index or the DRW height). */
  type Nibble = n: int | 0 <= n < 0x10

  /** A 12-bit address field. */
  type Addr = a: int | 0 <= a < 0x1000

  /** Opcode fields: top nibble, x = bits 8..11, y = bits 4..7, n = low
      nibble, kk = low byte, nnn = low 12 bits. */
  function Hi(op: Word): Nibble { op / 0x1000 }
  function X(op: Word): Nibble { (op / 0x100) % 0x10 }
  function Y(op: Word): Nibble { (op / 0x10) % 0x10 }
  function N(op: Word): Nibble { op % 0x10 }
  function KK(op: Word): Byte { op % 0x100 }
  function NNN(op: Word): Addr { op % 0x1000 }

  datatype Instr =
    | Cls                        // 00E0
    | Ret                        // 00EE
    | Sys(addr: Addr)            // 0nnn
    | Jp(addr: Addr)             // 1nnn
    | Call(addr: Addr)           // 2nnn
    | SeImm(x: Nibble, kk: Byte)  // 3xkk
    | SneImm(x: Nibble, kk: Byte) // 4xkk
    | SeReg(x: Nibble, y: Nibble) // 5xy0
    | LdImm(x: Nibble, kk: Byte)  // 6xkk
    | AddImm(x: Nibble, kk: Byte) // 7xkk
    | LdReg(x: Nibble, y: Nibble) // 8xy0
    | Or(x: Nibble, y: Nibble)    // 8xy1
    | And(x: Nibble, y: Nibble)   // 8xy2
    | Xor(x: Nibble, y: Nibble)   // 8xy3
    | AddReg(x: Nibble, y: Nibble) // 8xy4
    | Sub(x: Nibble, y: Nibble)   // 8xy5
    | Shr(x: Nibble, y: Nibble)   // 8xy6 (y is decoded but not used)
    | Subn(x: Nibble, y: Nibble)  // 8xy7
    | Shl(x: Nibble, y: Nibble)   // 8xyE (y is decoded but not used)
    | SneReg(x: Nibble, y: Nibble) // 9xy0
    | LdI(addr: Addr)            // Annn
    | JpV0(addr: Addr)           // Bnnn
    | Rnd(x: Nibble, kk: Byte)    // Cxkk
    | Drw(x: Nibble, y: Nibble, n: Nibble) // Dxyn
    | Skp(x: Nibble)             // Ex9E
    | Sknp(x: Nibble)            // ExA1
    | LdVxDt(x: Nibble)          // Fx07
    | LdVxKey(x: Nibble)         // Fx0A
    | LdDtVx(x: Nibble)          // Fx15
    | LdStVx(x: Nibble)          // Fx18
    | AddI(x: Nibble)            // Fx1E
    | LdF(x: Nibble)             // Fx29
    | LdB(x: Nibble)             // Fx33
    | StoreRegs(x: Nibble)       // Fx55
    | LoadRegs(x: Nibble)        // Fx65
    | Illegal(op: Word)          // anything else

  /** The opcodes no branch of the decode chain accepts, listed family by
      family: 5xyN and 9xyN with N != 0, 8xyN with N outside 0..7 and E, and
      the Ex/Fx low bytes that name no instruction. */
  predicate IllegalPattern(op: Word)
  {
    var hi, n, kk := Hi(op), N(op), KK(op);
    || (hi == 0x5 && n != 0x0)
    || (hi == 0x8 && 0x8 <= n && n != 0xE)
    || (hi == 0x9 && n != 0x0)
    || (hi == 0xE && kk != 0x9E && kk != 0xA1)
    || (hi == 0xF && kk !in {0x07, 0x0A, 0x15, 0x18, 0x1E, 0x29, 0x33, 0x55, 0x65})
  }

  /** The instructions some opcode decodes to: `Sys` never carries the two
      addresses claimed by CLS and RET, and `Illegal` only carries opcodes
      that no rule accepts. */
  predicate WellFormed(ins: Instr)
  {
    match ins
    case Sys(a) => a != 0x0E0 && a != 0x0EE
    case Illegal(op) => IllegalPattern(op)
    case _ => true
  }

  /** The decode chain, matched in the order of the source's `if`/`else if`
      chain: CLS and RET before the 0nnn catch-all, whole-nibble families
      before the masked 5/8/9/E/F families. */
  function Decode(op: Word): (r: Instr)
    ensures WellFormed(r)
    ensures r == Cls <==> op == 0x00E0
    ensures r == Ret <==> op == 0x00EE
    ensures r.Sys? <==> Hi(op) == 0x0 && op != 0x00E0 && op != 0x00EE
    ensures r.Illegal? <==> IllegalPattern(op)
  {
    var hi, x, y, n, kk, nnn := Hi(op), X(op), Y(op), N(op), KK(op), NNN(op);
    if op == 0x00E0 then Cls
    else if op == 0x00EE then Ret
    else if hi == 0x0 then Sys(nnn)
    else if hi == 0x1 then Jp(nnn)
    else if hi == 0x2 then Call(nnn)
    else if hi == 0x3 then SeImm(x, kk)
    else if hi == 0x4 then SneImm(x, kk)
    else if hi == 0x5 && n == 0x0 then SeReg(x, y)
    else if hi == 0x6 then LdImm(x, kk)
    else if hi == 0x7 then AddImm(x, kk)
    else if hi == 0x8 && n == 0x0 then LdReg(x, y)
    else if hi == 0x8 && n == 0x1 then Or(x, y)
    else if hi == 0x8 && n == 0x2 then And(x, y)
    else if hi == 0x8 && n == 0x3 then Xor(x, y)
    else if hi == 0x8 && n == 0x4 then AddReg(x, y)
    else if hi == 0x8 && n == 0x5 then Sub(x, y)
    else if hi == 0x8 && n == 0x6 then Shr(x, y)
    else if hi == 0x8 && n == 0x7 then Subn(x, y)
    else if hi == 0x8 && n == 0xE then Shl(x, y)
    else if hi == 0x9 && n == 0x0 then SneReg(x, y)
    else if hi == 0xA then LdI(nnn)
    else if hi == 0xB then JpV0(nnn)
    else if hi == 0xC then Rnd(x, kk)
    else if hi == 0xD then Drw(x, y, n)
    else if hi == 0xE && kk == 0x9E then Skp(x)
    else if hi == 0xE && kk == 0xA1 then Sknp(x)
    else if hi == 0xF && kk == 0x07 then LdVxDt(x)
    else if hi == 0xF && kk == 0x0A then LdVxKey(x)
    else if hi == 0xF && kk == 0x15 then LdDtVx(x)
    else if hi == 0xF && kk == 0x18 then LdStVx(x)
    else if hi == 0xF && kk == 0x1E then AddI(x)
    else if hi == 0xF && kk == 0x29 then LdF(x)
    else if hi == 0xF && kk == 0x33 then LdB(x)
    else if hi == 0xF && kk == 0x55 then StoreRegs(x)
    else if hi == 0xF && kk == 0x65 then LoadRegs(x)
    else Illegal(op)
  }

  /** The opcode built from its four nibbles. */
  function Compose(hi: Nibble, x: Nibble, y: Nibble, n: Nibble): Word
  {
    hi * 0x1000 + x * 0x100 + y * 0x10 + n
  }

  /** The canonical opcode of an instruction: the assembler's view. */
  function Encode(ins: Instr): Word
  {
    match ins
    case Cls => 0x00E0
    case Ret => 0x00EE
    case Sys(a) => Compose(0x0, a / 0x100, (a / 0x10) % 0x10, a % 0x10)
    case Jp(a) => Compose(0x1, a / 0x100, (a / 0x10) % 0x10, a % 0x10)
    case Call(a) => Compose(0x2, a / 0x100, (a / 0x10) % 0x10, a % 0x10)
    case SeImm(x, kk) => Compose(0x3, x, kk / 0x10, kk % 0x10)
    case SneImm(x, kk) => Compose(0x4, x, kk / 0x10, kk % 0x10)
    case SeReg(x, y) => Compose(0x5, x, y, 0x0)
    case LdImm(x, kk) => Compose(0x6, x, kk / 0x10, kk % 0x10)
    case AddImm(x, kk) => Compose(0x7, x, kk / 0x10, kk % 0x10)
    case LdReg(x, y) => Compose(0x8, x, y, 0x0)
    case Or(x, y) => Compose(0x8, x, y, 0x1)
    case And(x, y) => Compose(0x8, x, y, 0x2)
    case Xor(x, y) => Compose(0x8, x, y, 0x3)
    case AddReg(x, y) => Compose(0x8, x, y, 0x4)
    case Sub(x, y) => Compose(0x8, x, y, 0x5)
    case Shr(x, y) => Compose(0x8, x, y, 0x6)
    case Subn(x, y) => Compose(0x8, x, y, 0x7)
    case Shl(x, y) => Compose(0x8, x, y, 0xE)
    case SneReg(x, y) => Compose(0x9, x, y, 0x0)
    case LdI(a) => Compose(0xA, a / 0x100, (a / 0x10) % 0x10, a % 0x10)
    case JpV0(a) => Compose(0xB, a / 0x100, (a / 0x10) % 0x10, a % 0x10)
    case Rnd(x, kk) => Compose(0xC, x, kk / 0x10, kk % 0x10)
    case Drw(x, y, n) => Compose(0xD, x, y, n)
    case Skp(x) => Compose(0xE, x, 0x9, 0xE)
    case Sknp(x) => Compose(0xE, x, 0xA, 0x1)
    case LdVxDt(x) => Compose(0xF, x, 0x0, 0x7)
    case LdVxKey(x) => Compose(0xF, x, 0x0, 0xA)
    case LdDtVx(x) => Compose(0xF, x, 0x1, 0x5)
    case LdStVx(x) => Compose(0xF, x, 0x1, 0x8)
    case AddI(x) => Compose(0xF, x, 0x1, 0xE)
    case LdF(x) => Compose(0xF, x, 0x2, 0x9)
    case LdB(x) => Compose(0xF, x, 0x3, 0x3)
    case StoreRegs(x) => Compose(0xF, x, 0x5, 0x5)
    case LoadRegs(x) => Compose(0xF, x, 0x6, 0x5)
    case Illegal(op) => op
  }

  /** Reading the fields back out of a composed opcode. */
  lemma FieldsOfCompose(hi: Nibble, x: Nibble, y: Nibble, n: Nibble)
    ensures var op := Compose(hi, x, y, n);
      && Hi(op) == hi && X(op) == x && Y(op) == y && N(op) == n
      && KK(op) == y * 0x10 + n && NNN(op) == x * 0x100 + y * 0x10 + n
  {
    var op := Compose(hi, x, y, n);
    var lo := y * 0x10 + n;
    var mid := x * 0x100 + lo;
    assert op == hi * 0x1000 + mid && 0 <= mid < 0x1000;
    assert op / 0x1000 == hi;
    assert op % 0x1000 == mid;
    assert op / 0x100 == hi * 0x10 + x;
    assert op % 0x100 == lo;
    assert (op / 0x100) % 0x10 == x;
    assert op / 0x10 == hi * 0x100 + x * 0x10 + y;
    assert (op / 0x10) % 0x10 == y;
    assert op % 0x10 == n;
  }

  /** Every opcode is the composition of its four nibbles. */
  lemma ComposeOfFields(op: Word)
    ensures op == Compose(Hi(op), X(op), Y(op), N(op))
    ensures KK(op) == Y(op) * 0x10 + N(op)
    ensures NNN(op) == X(op) * 0x100 + Y(op) * 0x10 + N(op)
  {
    var a1 := op / 0x10;
    var a2 := a1 / 0x10;
    var a3 := a2 / 0x10;
    var n, y, x := op % 0x10, a1 % 0x10, a2 % 0x10;
    assert op == 0x10 * a1 + n;
    assert a1 == 0x10 * a2 + y;
    assert a2 == 0x10 * a3 + x;
    assert 0 <= a3 < 0x10;
    assert op == 0x1000 * a3 + (0x100 * x + 0x10 * y + n);
    assert op == 0x100 * a2 + (0x10 * y + n);
    assert op / 0x100 == a2;
    assert op / 0x1000 == a3;
    assert op % 0x100 == 0x10 * y + n;
    assert op % 0x1000 == 0x100 * x + 0x10 * y + n;
  }

  /** Splitting a 12-bit address into nibbles and putting it back. */
  lemma AddrNibbles(a: Addr)
    ensures a == (a / 0x100) * 0x100 + ((a / 0x10) % 0x10) * 0x10 + a % 0x10
  {
  }

  /** Decoding inverts encoding on the instructions with an address operand. */
  lemma DecodeEncodeAddr(ins: Instr)
    requires ins.Sys? || ins.Jp? || ins.Call? || ins.LdI? || ins.JpV0?
    requires WellFormed(ins)
    ensures Decode(Encode(ins)) == ins
  {
    var a := ins.addr;
    AddrNibbles(a);
    var x, y, n := a / 0x100, (a / 0x10) % 0x10, a % 0x10;
    var hi: Nibble := if ins.Sys? then 0 else if ins.Jp? then 1 else if ins.Call? then 2
                      else if ins.LdI? then 0xA else 0xB;
    FieldsOfCompose(hi, x, y, n);
    assert Encode(ins) == Compose(hi, x, y, n);
  }

  /** Decoding inverts encoding on the instructions with a byte operand. */
  lemma DecodeEncodeImm(ins: Instr)
    requires ins.SeImm? || ins.SneImm? || ins.LdImm? || ins.AddImm? || ins.Rnd?
    ensures Decode(Encode(ins)) == ins
  {
    var hi: Nibble := if ins.SeImm? then 3 else if ins.SneImm? then 4 else if ins.LdImm? then 6
                      else if ins.AddImm? then 7 else 0xC;
    FieldsOfCompose(hi, ins.x, ins.kk / 0x10, ins.kk % 0x10);
    assert Encode(ins) == Compose(hi, ins.x, ins.kk / 0x10, ins.kk % 0x10);
  }

  /** Decoding inverts encoding on the register-register families 5, 8, 9 and
      on DRW. */
  lemma DecodeEncodeReg(ins: Instr)
    requires ins.SeReg? || ins.LdReg? || ins.Or? || ins.And? || ins.Xor? || ins.AddReg?
          || ins.Sub? || ins.Shr? || ins.Subn? || ins.Shl? || ins.SneReg? || ins.Drw?
    ensures Decode(Encode(ins)) == ins
  {
    var hi: Nibble := if ins.SeReg? then 5 else if ins.SneReg? then 9 else if ins.Drw? then 0xD else 8;
    var n: Nibble := match ins
      case Or(_, _) => 1 case And(_, _) => 2 case Xor(_, _) => 3 case AddReg(_, _) => 4
      case Sub(_, _) => 5 case Shr(_, _) => 6 case Subn(_, _) => 7 case Shl(_, _) => 0xE
      case Drw(_, _, n) => n
      case _ => 0;
    FieldsOfCompose(hi, ins.x, ins.y, n);
    assert Encode(ins) == Compose(hi, ins.x, ins.y, n);
  }

  /** Decoding inverts encoding on the E family (key skips). */
  lemma DecodeEncodeKey(ins: Instr)
    requires ins.Skp? || ins.Sknp?
    ensures Decode(Encode(ins)) == ins
  {
    var kk: Byte := if ins.Skp? then 0x9E else 0xA1;
    FieldsOfCompose(0xE, ins.x, kk / 0x10, kk % 0x10);
    assert Encode(ins) == Compose(0xE, ins.x, kk / 0x10, kk % 0x10);
  }

  /** Decoding inverts encoding on the F-family timer and key-wait
      instructions. */
  lemma DecodeEncodeTimers(ins: Instr)
    requires ins.LdVxDt? || ins.LdVxKey? || ins.LdDtVx? || ins.LdStVx?
    ensures Decode(Encode(ins)) == ins
  {
    var kk: Byte :=
      if ins.LdVxDt? then 0x07 else if ins.LdVxKey? then 0x0A else if ins.LdDtVx? then 0x15 else 0x18;
    FieldsOfCompose(0xF, ins.x, kk / 0x10, kk % 0x10);
    var op := Encode(ins);
    assert op == Compose(0xF, ins.x, kk / 0x10, kk % 0x10);
    assert Hi(op) == 0xF && X(op) == ins.x && KK(op) == kk;
  }

  /** Decoding inverts encoding on the F-family instructions that work
      through I. */
  lemma DecodeEncodeIndex(ins: Instr)
    requires ins.AddI? || ins.LdF? || ins.LdB? || ins.StoreRegs? || ins.LoadRegs?
    ensures Decode(Encode(ins)) == ins
  {
    if ins.AddI? || ins.LdF? {
      DecodeEncodePointer(ins);
    } else {
      DecodeEncodeBlock(ins);
    }
  }

  /** Fx1E and Fx29, which set I. */
  lemma DecodeEncodePointer(ins: Instr)
    requires ins.AddI? || ins.LdF?
    ensures Decode(Encode(ins)) == ins
  {
    var kk: Byte := if ins.AddI? then 0x1E else 0x29;
    FieldsOfCompose(0xF, ins.x, kk / 0x10, kk % 0x10);
    var op := Encode(ins);
    assert op == Compose(0xF, ins.x, kk / 0x10, kk % 0x10);
    assert Hi(op) == 0xF && X(op) == ins.x && KK(op) == kk;
  }

  /** Fx33, Fx55 and Fx65, which write or read memory at I. */
  lemma DecodeEncodeBlock(ins: Instr)
    requires ins.LdB? || ins.StoreRegs? || ins.LoadRegs?
    ensures Decode(Encode(ins)) == ins
  {
    var kk: Byte := if ins.LdB? then 0x33 else if ins.StoreRegs? then 0x55 else 0x65;
    FieldsOfCompose(0xF, ins.x, kk / 0x10, kk % 0x10);
    var op := Encode(ins);
    assert op == Compose(0xF, ins.x, kk / 0x10, kk % 0x10);
    assert Hi(op) == 0xF && X(op) == ins.x && KK(op) == kk;
  }

  /** Decoding inverts encoding on every instruction an opcode can decode
      to. */
  lemma DecodeEncode(ins: Instr)
    requires WellFormed(ins)
    ensures Decode(Encode(ins)) == ins
  {
    if ins.Sys? || ins.Jp? || ins.Call? || ins.LdI? || ins.JpV0? {
      DecodeEncodeAddr(ins);
    } else if ins.SeImm? || ins.SneImm? || ins.LdImm? || ins.AddImm? || ins.Rnd? {
      DecodeEncodeImm(ins);
    } else if ins.SeReg? || ins.LdReg? || ins.Or? || ins.And? || ins.Xor? || ins.AddReg?
           || ins.Sub? || ins.Shr? || ins.Subn? || ins.Shl? || ins.SneReg? || ins.Drw? {
      DecodeEncodeReg(ins);
    } else if ins.Skp? || ins.Sknp? {
      DecodeEncodeKey(ins);
    } else if ins.LdVxDt? || ins.LdVxKey? || ins.LdDtVx? || ins.LdStVx? {
      DecodeEncodeTimers(ins);
    } else if ins.AddI? || ins.LdF? || ins.LdB? || ins.StoreRegs? || ins.LoadRegs? {
      DecodeEncodeIndex(ins);
    }
  }

  /** Splitting `q * 16 + r` into quotient and remainder. */
  lemma Split16(q: int, r: int)
    requires 0 <= q && 0 <= r < 0x10
    ensures (q * 0x10 + r) / 0x10 == q && (q * 0x10 + r) % 0x10 == r
  {
  }

  /** Splitting `q * 256 + r` into quotient and remainder. */
  lemma Split256(q: int, r: int)
    requires 0 <= q && 0 <= r < 0x100
    ensures (q * 0x100 + r) / 0x100 == q
  {
  }

  /** A 12-bit address built from three nibbles gives them back. */
  lemma AddrSplit(x: Nibble, y: Nibble, n: Nibble)
    ensures var a := x * 0x100 + y * 0x10 + n;
      a / 0x100 == x && (a / 0x10) % 0x10 == y && a % 0x10 == n
  {
    var a := x * 0x100 + y * 0x10 + n;
    assert a == (x * 0x10 + y) * 0x10 + n;
    Split16(x * 0x10 + y, n);
    Split16(x, y);
    assert a == x * 0x100 + (y * 0x10 + n);
    Split256(x, y * 0x10 + n);
  }

  /** `EncodeDecode` on the opcodes built from four given nibbles, for the
      0nnn family: CLS, RET and SYS. */
  lemma RoundTripSys(x: Nibble, y: Nibble, n: Nibble)
    ensures Encode(Decode(Compose(0x0, x, y, n))) == Compose(0x0, x, y, n)
  {
    var op := Compose(0x0, x, y, n);
    FieldsOfCompose(0x0, x, y, n);
    if op != 0x00E0 && op != 0x00EE {
      AddrSplit(x, y, n);
      assert Decode(op) == Sys(x * 0x100 + y * 0x10 + n);
    }
  }

  /** The same for the jump, call and address-load families. */
  lemma RoundTripAddr(h: Nibble, x: Nibble, y: Nibble, n: Nibble)
    requires h == 0x1 || h == 0x2 || h == 0xA || h == 0xB
    ensures Encode(Decode(Compose(h, x, y, n))) == Compose(h, x, y, n)
  {
    var op, a := Compose(h, x, y, n), x * 0x100 + y * 0x10 + n;
    FieldsOfCompose(h, x, y, n);
    AddrSplit(x, y, n);
    assert Hi(op) == h && NNN(op) == a;
    var d := Decode(op);
    assert d == (if h == 0x1 then Jp(a) else if h == 0x2 then Call(a)
                 else if h == 0xA then LdI(a) else JpV0(a));
    assert Encode(d) == Compose(h, a / 0x100, (a / 0x10) % 0x10, a % 0x10);
  }

  /** The same for the families with a register and a byte operand. */
  lemma RoundTripImm(h: Nibble, x: Nibble, y: Nibble, n: Nibble)
    requires h == 0x3 || h == 0x4 || h == 0x6 || h == 0x7 || h == 0xC
    ensures Encode(Decode(Compose(h, x, y, n))) == Compose(h, x, y, n)
  {
    var op, kk := Compose(h, x, y, n), y * 0x10 + n;
    FieldsOfCompose(h, x, y, n);
    Split16(y, n);
    assert Hi(op) == h && X(op) == x && KK(op) == kk;
    var d := Decode(op);
    assert d == (if h == 0x3 then SeImm(x, kk) else if h == 0x4 then SneImm(x, kk)
                 else if h == 0x6 then LdImm(x, kk) else if h == 0x7 then AddImm(x, kk)
                 else Rnd(x, kk));
    assert Encode(d) == Compose(h, x, kk / 0x10, kk % 0x10);
  }

  /** The same for the E family, where the low byte selects the key test. */
  lemma RoundTripKeys(x: Nibble, y: Nibble, n: Nibble)
    ensures Encode(Decode(Compose(0xE, x, y, n))) == Compose(0xE, x, y, n)
  {
    var op, kk := Compose(0xE, x, y, n), y * 0x10 + n;
    FieldsOfCompose(0xE, x, y, n);
    Split16(y, n);
    assert Hi(op) == 0xE && X(op) == x && KK(op) == kk;
    if kk == 0x9E {
      assert Decode(op) == Skp(x);
    } else if kk == 0xA1 {
      assert Decode(op) == Sknp(x);
    } else {
      assert Decode(op) == Illegal(op);
    }
  }

  /** The same for the F family, where the low byte selects the
      instruction. */
  lemma RoundTripMisc(x: Nibble, y: Nibble, n: Nibble)
    ensures Encode(Decode(Compose(0xF, x, y, n))) == Compose(0xF, x, y, n)
  {
    var op, kk := Compose(0xF, x, y, n), y * 0x10 + n;
    FieldsOfCompose(0xF, x, y, n);
    Split16(y, n);
    assert Hi(op) == 0xF && X(op) == x && KK(op) == kk;
    var d := Decode(op);
    if kk in {0x07, 0x0A, 0x15, 0x18, 0x1E, 0x29, 0x33, 0x55, 0x65} {
      assert !d.Illegal?;
      assert Encode(d) == Compose(0xF, x, kk / 0x10, kk % 0x10);
    } else {
      assert d == Illegal(op);
    }
  }

  /** The same for the register-register families and DRW. */
  lemma RoundTripRegs(h: Nibble, x: Nibble, y: Nibble, n: Nibble)
    requires h == 0x5 || h == 0x8 || h == 0x9 || h == 0xD
    ensures Encode(Decode(Compose(h, x, y, n))) == Compose(h, x, y, n)
  {
    FieldsOfCompose(h, x, y, n);
  }

  /** Encoding inverts decoding on every opcode: decoding loses nothing, so
      distinct opcodes decode to distinct instructions. */
  lemma EncodeDecode(op: Word)
    ensures Encode(Decode(op)) == op
  {
    ComposeOfFields(op);
    var h, x, y, n := Hi(op), X(op), Y(op), N(op);
    if h == 0x0 {
      RoundTripSys(x, y, n);
    } else if h == 0x1 || h == 0x2 || h == 0xA || h == 0xB {
      RoundTripAddr(h, x, y, n);
    } else if h == 0x5 || h == 0x8 || h == 0x9 || h == 0xD {
      RoundTripRegs(h, x, y, n);
    } else if h == 0xE {
      RoundTripKeys(x, y, n);
    } else if h == 0xF {
      RoundTripMisc(x, y, n);
    } else {
      RoundTripImm(h, x, y, n);
    }
  }

  /** Concrete decode facts: the all-ones opcode is illegal, and the 0nnn
      family splits into CLS, RET and the ignored SYS. */
  lemma DecodeSamples()
    ensures Decode(0xFFFF) == Illegal(0xFFFF)
    ensures Decode(0x00E0) == Cls && Decode(0x00EE) == Ret
    ensures Decode(0x0123) == Sys(0x123)
  {
    assert Decode(0xFFFF) == Illegal(0xFFFF) by {
      assert Hi(0xFFFF) == 0xF && KK(0xFFFF) == 0xFF;
    }
    assert Decode(0x0123) == Sys(0x123) by {
      assert Hi(0x0123) == 0 && NNN(0x0123) == 0x123;
    }
  }

  /** Examples from the 8 family: the low nibble selects the operation, and
      a low nibble with no operation is illegal. */
  lemma DecodeAluSamples()
    ensures Decode(0x8127) == Subn(1, 2) && Decode(0x812F) == Illegal(0x812F)
  {
    assert Hi(0x8127) == 8 && X(0x8127) == 1 && Y(0x8127) == 2 && N(0x8127) == 7;
    assert Hi(0x812F) == 8 && N(0x812F) == 0xF;
  }
}
