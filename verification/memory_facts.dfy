/** The I-relative memory instructions: BCD, font lookup, and the register
    block store and load. */
module MemoryFacts {
  import opened State
  import opened Decoder
  import opened Interp
  import opened Memory

  /** Fx33 writes the three decimal digits of Vx at I, I+1, I+2: each is a
      digit, together they spell Vx, and nothing else changes. */
  lemma BcdDigits(m: Machine, x: Nibble, inp: Inputs)
    requires Valid(m) && m.pc < RAM_SIZE - 1 && m.i + 2 < RAM_SIZE
    ensures var o := Execute(m, LdB(x), inp);
      && o.Running? && o.events == []
      && o.m == m.(ram := o.m.ram, pc := m.pc + 2)
      && var d0, d1, d2 := o.m.ram[m.i], o.m.ram[m.i + 1], o.m.ram[m.i + 2];
      && d0 <= 9 && d1 <= 9 && d2 <= 9
      && 100 * d0 + 10 * d1 + d2 == m.v[x]
      && (forall a :: 0 <= a < RAM_SIZE && !(m.i <= a <= m.i + 2) ==> o.m.ram[a] == m.ram[a])
  {
    var b := m.v[x];
    DecimalDigits(b);
    var ram := m.ram[m.i := b / 100][m.i + 1 := (b / 10) % 10][m.i + 2 := b % 100 % 10];
    assert Execute(m, LdB(x), inp) == ExecBcd(m, x) == Running(m.(ram := ram, pc := m.pc + 2), []);
  }

  /** The hundreds, tens and units digits of a byte, as Fx33 computes them,
      are decimal digits that spell the byte. */
  lemma DecimalDigits(b: int)
    requires 0 <= b < 0x100
    ensures b / 100 <= 9 && (b / 10) % 10 <= 9 && b % 100 % 10 <= 9
    ensures 100 * (b / 100) + 10 * ((b / 10) % 10) + b % 100 % 10 == b
  {
    var h, r := b / 100, b % 100;
    assert b == 100 * h + r && 0 <= r < 100;
    assert b / 10 == 10 * h + r / 10;
    assert (b / 10) % 10 == r / 10;
    assert r == 10 * (r / 10) + r % 10;
  }

  /** Fx33 past the end of RAM is an out-of-bounds access. */
  lemma BcdOutOfRange(m: Machine, x: Nibble, inp: Inputs)
    requires Valid(m) && m.pc < RAM_SIZE - 1 && m.i + 2 >= RAM_SIZE
    ensures Execute(m, LdB(x), inp) == Faulted(MemOutOfBounds, [])
  {
  }

  /** Concrete BCD values: 234 becomes 2, 3, 4 and 7 becomes 0, 0, 7. */
  lemma BcdSamples(m: Machine, inp: Inputs)
    requires Valid(m) && m.pc < RAM_SIZE - 1 && m.i + 2 < RAM_SIZE
    ensures var r := Execute(m.(v := m.v[0 := 234]), LdB(0), inp).m.ram;
      r[m.i..m.i + 3] == [2, 3, 4]
    ensures var r := Execute(m.(v := m.v[0 := 7]), LdB(0), inp).m.ram;
      r[m.i..m.i + 3] == [0, 0, 7]
  {
    var big := Execute(m.(v := m.v[0 := 234]), LdB(0), inp).m.ram;
    assert big == m.ram[m.i := 2][m.i + 1 := 3][m.i + 2 := 4];
    var small := Execute(m.(v := m.v[0 := 7]), LdB(0), inp).m.ram;
    assert small == m.ram[m.i := 0][m.i + 1 := 0][m.i + 2 := 7];
  }

  /** Fx29 points I at the glyph of Vx: I = 5 * Vx, and for a digit 0..F with
      the font in place the five bytes there are that glyph. */
  lemma FontGlyph(m: Machine, x: Nibble, inp: Inputs)
    requires Valid(m) && m.pc < RAM_SIZE - 1
    ensures var o := Execute(m, LdF(x), inp);
      && o.Running? && o.m == m.(i := 5 * (m.v[x] as int), pc := m.pc + 2)
      && var g: int := m.v[x];
      (g < 16 && m.ram[..|FONT|] == FONT ==> o.m.ram[o.m.i..o.m.i + 5] == FONT[5 * g..5 * g + 5])
  {
    var g: int := m.v[x];
    if g < 16 && m.ram[..|FONT|] == FONT {
      assert 5 * g + 5 <= |FONT|;
      forall a | 5 * g <= a < 5 * g + 5 ensures m.ram[a] == FONT[a] {
        assert m.ram[..|FONT|][a] == m.ram[a];
      }
      assert m.ram[5 * g..5 * g + 5] == FONT[5 * g..5 * g + 5];
    }
  }

  /** Fx55 copies V0..Vx to RAM[I..I+x] and leaves I, the registers and the
      rest of RAM alone. */
  lemma StoreRegsEffect(m: Machine, x: Nibble, inp: Inputs)
    requires Valid(m) && m.pc < RAM_SIZE - 1 && m.i + x < RAM_SIZE
    ensures var o := Execute(m, StoreRegs(x), inp);
      && o.Running? && o.events == []
      && o.m == m.(ram := o.m.ram, pc := m.pc + 2)
      && (forall j :: 0 <= j <= x ==> o.m.ram[m.i + j] == m.v[j])
      && (forall a :: 0 <= a < RAM_SIZE && !(m.i <= a <= m.i + x) ==> o.m.ram[a] == m.ram[a])
  {
    var o := Execute(m, StoreRegs(x), inp);
    assert o == ExecStore(m, x);
    assert o.m.ram == StoreUpTo(m.ram, m.i, m.v, x + 1);
  }

  /** Fx65 copies RAM[I..I+x] into V0..Vx and leaves I, RAM and the other
      registers alone. */
  lemma LoadRegsEffect(m: Machine, x: Nibble, inp: Inputs)
    requires Valid(m) && m.pc < RAM_SIZE - 1 && m.i + x < RAM_SIZE
    ensures var o := Execute(m, LoadRegs(x), inp);
      && o.Running? && o.events == []
      && o.m == m.(v := o.m.v, pc := m.pc + 2)
      && (forall j :: 0 <= j <= x ==> o.m.v[j] == m.ram[m.i + j])
      && (forall j :: x < j < REG_COUNT ==> o.m.v[j] == m.v[j])
  {
    LoadUpToSplice(m.v, m.ram, m.i, x + 1);
    var o := Execute(m, LoadRegs(x), inp);
    assert o.m.v == m.ram[m.i..m.i + x + 1] + m.v[x + 1..];
  }

  /** Fx55 followed by Fx65 with the same x and I gives back the registers it
      stored, with I unchanged. */
  lemma StoreThenLoadRegs(m: Machine, x: Nibble, inp: Inputs, inp': Inputs)
    requires Valid(m) && m.pc < RAM_SIZE - 3 && m.i + x < RAM_SIZE
    ensures Execute(m, StoreRegs(x), inp).Running?
    ensures var s := Execute(m, StoreRegs(x), inp).m;
      var l := Execute(s, LoadRegs(x), inp');
      && l.Running? && l.m.v == m.v && l.m.i == m.i && l.m.ram == s.ram
  {
    var stored := StoreUpTo(m.ram, m.i, m.v, x + 1);
    var s := m.(ram := stored, pc := m.pc + 2);
    assert Execute(m, StoreRegs(x), inp) == Running(s, []) by {
      ExecutesFx(m, StoreRegs(x), inp);
      assert ExecFx(m, StoreRegs(x)) == ExecStore(m, x);
    }
    var loaded := LoadUpTo(m.v, stored, m.i, x + 1);
    assert Execute(s, LoadRegs(x), inp') == Running(s.(v := loaded, pc := s.pc + 2), []) by {
      ExecutesFx(s, LoadRegs(x), inp');
      assert ExecFx(s, LoadRegs(x)) == ExecLoad(s, x);
    }
    assert loaded == m.v by {
      StoreThenLoad(m.ram, m.i, m.v, x + 1);
    }
  }

  /** Executing an Fx instruction is running the Fx routine on it. */
  lemma ExecutesFx(m: Machine, ins: Instr, inp: Inputs)
    requires Valid(m) && m.pc < RAM_SIZE - 1 && IsFxOp(ins)
    ensures Execute(m, ins, inp) == ExecFx(m, ins)
  {
  }

  /** The block transfers past the end of RAM are out-of-bounds accesses. */
  lemma BlockOutOfRange(m: Machine, x: Nibble, inp: Inputs)
    requires Valid(m) && m.pc < RAM_SIZE - 1 && m.i + x >= RAM_SIZE
    ensures Execute(m, StoreRegs(x), inp) == Faulted(MemOutOfBounds, [])
    ensures Execute(m, LoadRegs(x), inp) == Faulted(MemOutOfBounds, [])
  {
  }

  /** Fx1E adds Vx to I modulo 2^16 and sets no flag. */
  lemma AddIWraps(m: Machine, x: Nibble, inp: Inputs)
    requires Valid(m) && m.pc < RAM_SIZE - 1
    ensures Execute(m, AddI(x), inp)
         == Running(m.(i := (m.i + m.v[x]) % 0x1_0000, pc := m.pc + 2), [])
  {
  }
}
