/** What the register instructions compute: 8-bit wrap-around, carry and
    borrow flags, the shift flags, and the order in which VF and Vx are
    written. */
module AluFacts {
  import opened Bytes
  import opened State
  import opened Decoder
  import opened Interp

  /** Registers other than Vx and VF are left alone. */
  predicate OthersKept(v: seq<Byte>, v': seq<Byte>, x: nat)
    requires |v| == REG_COUNT && |v'| == REG_COUNT
  {
    forall j :: 0 <= j < REG_COUNT && j != x && j != FLAG ==> v'[j] == v[j]
  }

  /** 7xkk adds modulo 256 and does not touch VF (unless VF is the target). */
  lemma AddImmWraps(m: Machine, x: Nibble, kk: Byte, inp: Inputs)
    requires Valid(m) && m.pc < RAM_SIZE - 1
    ensures Execute(m, AddImm(x, kk), inp)
         == Running(m.(v := m.v[x := (m.v[x] + kk) % 256], pc := m.pc + 2), [])
  {
  }

  /** 8xy4: Vx = (a + b) mod 256 and VF = 1 exactly when a + b > 255; the
      flag is written first, so for x = F the sum overwrites it. */
  lemma AddRegCarry(m: Machine, x: Nibble, y: Nibble, inp: Inputs)
    requires Valid(m) && m.pc < RAM_SIZE - 1
    ensures var o := Execute(m, AddReg(x, y), inp);
      var a: int, b: int := m.v[x], m.v[y];
      && o.Running? && o.events == []
      && o.m == m.(v := o.m.v, pc := m.pc + 2)
      && o.m.v[x] == (a + b) % 256
      && o.m.v[FLAG] == (if x == FLAG then (a + b) % 256 else if a + b > 255 then 1 else 0)
      && OthersKept(m.v, o.m.v, x)
  {
  }

  /** 8xy5: Vx = (a - b) mod 256 and VF = 1 exactly when a >= b (no
      borrow); for x = F the difference overwrites the flag. */
  lemma SubBorrow(m: Machine, x: Nibble, y: Nibble, inp: Inputs)
    requires Valid(m) && m.pc < RAM_SIZE - 1
    ensures var o := Execute(m, Sub(x, y), inp);
      var a: int, b: int := m.v[x], m.v[y];
      && o.Running? && o.events == []
      && o.m == m.(v := o.m.v, pc := m.pc + 2)
      && o.m.v[x] == (a - b) % 256
      && o.m.v[FLAG] == (if x == FLAG then (a - b) % 256 else if a >= b then 1 else 0)
      && OthersKept(m.v, o.m.v, x)
  {
    Wrap8OfWrap16(m.v[x] as int - m.v[y]);
  }

  /** 8xy7: Vx = (b - a) mod 256 and VF = 1 exactly when b >= a. */
  lemma SubnBorrow(m: Machine, x: Nibble, y: Nibble, inp: Inputs)
    requires Valid(m) && m.pc < RAM_SIZE - 1
    ensures var o := Execute(m, Subn(x, y), inp);
      var a: int, b: int := m.v[x], m.v[y];
      && o.Running? && o.events == []
      && o.m == m.(v := o.m.v, pc := m.pc + 2)
      && o.m.v[x] == (b - a) % 256
      && o.m.v[FLAG] == (if x == FLAG then (b - a) % 256 else if b >= a then 1 else 0)
      && OthersKept(m.v, o.m.v, x)
  {
    Wrap8OfWrap16(m.v[y] as int - m.v[x]);
  }

  /** 8xy6: VF = the old bit 0 and Vx = old / 2. For x = F the shift reads
      the freshly written flag, so VF ends up 0. */
  lemma ShrFlag(m: Machine, x: Nibble, y: Nibble, inp: Inputs)
    requires Valid(m) && m.pc < RAM_SIZE - 1
    ensures var o := Execute(m, Shr(x, y), inp);
      var a: int := m.v[x];
      && o.Running? && o.events == []
      && o.m == m.(v := o.m.v, pc := m.pc + 2)
      && (x != FLAG ==> o.m.v[FLAG] == a % 2 && o.m.v[x] == a / 2)
      && (x == FLAG ==> o.m.v[FLAG] == 0)
      && OthersKept(m.v, o.m.v, x)
  {
    AndOne(m.v[x]);
  }

  /** 8xyE: VF = bit 3 of the old value (mask 0x8, not bit 7) and Vx =
      (2 * old) mod 256. For x = F the shift doubles the freshly written
      flag. */
  lemma ShlFlagBit3(m: Machine, x: Nibble, y: Nibble, inp: Inputs)
    requires Valid(m) && m.pc < RAM_SIZE - 1
    ensures var o := Execute(m, Shl(x, y), inp);
      var a: int := m.v[x];
      && o.Running? && o.events == []
      && o.m == m.(v := o.m.v, pc := m.pc + 2)
      && (x != FLAG ==> o.m.v[FLAG] == (a / 8) % 2 && o.m.v[x] == (2 * a) % 256)
      && (x == FLAG ==> o.m.v[FLAG] == 2 * ((a / 8) % 2))
      && OthersKept(m.v, o.m.v, x)
  {
    AndEight(m.v[x]);
  }

  /** The bit-3 test is not the conventional bit-7 test: 0x80 shifted left
      sets no flag, 0x08 does. */
  lemma ShlFlagSamples(m: Machine, inp: Inputs)
    requires Valid(m) && m.pc < RAM_SIZE - 1
    ensures Execute(m.(v := m.v[0 := 0x80]), Shl(0, 0), inp).m.v[FLAG] == 0
    ensures Execute(m.(v := m.v[0 := 0x08]), Shl(0, 0), inp).m.v[FLAG] == 1
  {
    ShlFlagBit3(m.(v := m.v[0 := 0x80]), 0, 0, inp);
    ShlFlagBit3(m.(v := m.v[0 := 0x08]), 0, 0, inp);
  }

  /** The flagless register instructions write Vx and nothing else: 6xkk
      loads kk, 8xy0 copies Vy, 8xy1/2/3 combine Vx with Vy bitwise, 7xkk
      adds modulo 256 and Cxkk masks the random byte. */
  lemma RegisterOpFrame(m: Machine, ins: Instr, inp: Inputs)
    requires Valid(m) && m.pc < RAM_SIZE - 1
    requires ins.LdImm? || ins.AddImm? || ins.LdReg? || ins.Or? || ins.And? || ins.Xor?
          || ins.Rnd?
    ensures var o := Execute(m, ins, inp);
      && o.Running? && o.events == []
      && o.m == m.(v := o.m.v, pc := m.pc + 2)
      && (forall j :: 0 <= j < REG_COUNT && j != ins.x ==> o.m.v[j] == m.v[j])
      && o.m.v[ins.x] == match ins
           case LdImm(_, kk) => kk
           case AddImm(x, kk) => (m.v[x] as int + kk) % 256
           case LdReg(_, y) => m.v[y]
           case Or(x, y) => Or8(m.v[x], m.v[y])
           case And(x, y) => And8(m.v[x], m.v[y])
           case Xor(x, y) => Xor8(m.v[x], m.v[y])
           case _ => And8(inp.rnd, ins.kk)
  {
  }

  /** RND keeps only the bits of the random byte that the mask allows: a
      zero mask always gives 0, and the mask 0x01 gives the random byte's
      low bit. */
  lemma RndMasks(m: Machine, x: Nibble, kk: Byte, inp: Inputs)
    requires Valid(m) && m.pc < RAM_SIZE - 1
    ensures Execute(m, Rnd(x, kk), inp)
         == Running(m.(v := m.v[x := And8(inp.rnd, kk)], pc := m.pc + 2), [])
    ensures Execute(m, Rnd(x, 0), inp).m.v[x] == 0
    ensures Execute(m, Rnd(x, 1), inp).m.v[x] == inp.rnd % 2
  {
    AndOne(inp.rnd);
  }
}
