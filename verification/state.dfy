/** The machine state of the interpreter (the fields of class `VM`), its
    construction, program loading and the entry-point check of `run`. */
module State {
  import opened Bytes
  import opened Results

  const RAM_SIZE: nat := 4096
  const STACK_LEVELS: nat := 16
  const REG_COUNT: nat := 16
  /** Index of the flag register VF. */
  const FLAG: nat := 0xF
  const FB_WIDTH: nat := 64
  const FB_HEIGHT: nat := 32
  const FB_SIZE: nat := 64 * 32
  /** The conventional load and start address of a program. */
  const PROGRAM_START: nat := 0x200

  /** The hexadecimal font, glyph `g` at offset `5 * g`. */
  const FONT: seq<Byte> :=
    [0xF0, 0x90, 0x90, 0x90, 0xF0,
     0x20, 0x60, 0x20, 0x20, 0x70,
     0xF0, 0x10, 0xF0, 0x80, 0xF0,
     0xF0, 0x10, 0xF0, 0x10, 0xF0,
     0x90, 0x90, 0xF0, 0x10, 0x10,
     0xF0, 0x80, 0xF0, 0x10, 0xF0,
     0xF0, 0x80, 0xF0, 0x90, 0xF0,
     0xF0, 0x10, 0x20, 0x40, 0x40,
     0xF0, 0x90, 0xF0, 0x90, 0xF0,
     0xF0, 0x90, 0xF0, 0x10, 0xF0,
     0xF0, 0x90, 0xF0, 0x90, 0x90,
     0xE0, 0x90, 0xE0, 0x90, 0xE0,
     0xF0, 0x80, 0x80, 0x80, 0xF0,
     0xE0, 0x90, 0x90, 0x90, 0xE0,
     0xF0, 0x80, 0xF0, 0x80, 0xF0,
     0xF0, 0x80, 0xF0, 0x80, 0x80]

  /** Registers V0..VF, index register I, the two timers, program counter,
      stack pointer and stack, RAM and the 64x32 framebuffer (row-major,
      one byte per pixel, nonzero meaning "set"). */
  datatype Machine = Machine(
    v: seq<Byte>,
    i: Word,
    delay: Byte,
    sound: Byte,
    pc: Word,
    sp: Byte,
    stack: seq<Word>,
    ram: seq<Byte>,
    fb: seq<Byte>)

  /** The sizes fixed by the array declarations, and a stack pointer that
      indexes at most one past the last stack slot. */
  predicate Valid(m: Machine)
  {
    && |m.v| == REG_COUNT
    && |m.stack| == STACK_LEVELS
    && m.sp <= STACK_LEVELS
    && |m.ram| == RAM_SIZE
    && |m.fb| == FB_SIZE
  }

  /** Every pixel is either cleared (0) or set (0xFF), the only two values the
      interpreter ever writes into the framebuffer. */
  predicate FbBinary(fb: seq<Byte>)
  {
    forall p :: 0 <= p < |fb| ==> fb[p] == 0 || fb[p] == 0xFF
  }

  /** The constructor: registers, I, timers, PC and SP zeroed, the font copied
      over the first 80 bytes of freshly allocated RAM, the framebuffer
      zeroed. The rest of RAM and the stack are never initialised, so their
      prior contents are parameters. */
  function PowerOn(junkRam: seq<Byte>, junkStack: seq<Word>): (m: Machine)
    requires |junkRam| == RAM_SIZE && |junkStack| == STACK_LEVELS
    ensures Valid(m) && FbBinary(m.fb)
    ensures m.ram[..|FONT|] == FONT
    ensures forall a :: |FONT| <= a < RAM_SIZE ==> m.ram[a] == junkRam[a]
    ensures forall p :: 0 <= p < FB_SIZE ==> m.fb[p] == 0
    ensures forall r :: 0 <= r < REG_COUNT ==> m.v[r] == 0
    ensures m.i == 0 && m.pc == 0 && m.sp == 0 && m.delay == 0 && m.sound == 0
  {
    Machine(
      seq(REG_COUNT, _ => 0), 0, 0, 0, 0, 0,
      junkStack,
      FONT + junkRam[|FONT|..],
      seq(FB_SIZE, _ => 0))
  }

  /** A state right after construction: everything zeroed except RAM above
      the font and the stack, which may hold anything. */
  predicate IsPowerOnState(m: Machine)
  {
    && Valid(m)
    && m.ram[..|FONT|] == FONT
    && (forall p :: 0 <= p < FB_SIZE ==> m.fb[p] == 0)
    && (forall r :: 0 <= r < REG_COUNT ==> m.v[r] == 0)
    && m.i == 0 && m.pc == 0 && m.sp == 0 && m.delay == 0 && m.sound == 0
  }

  datatype LoadError = LoadOverflow(dest: nat, size: nat)

  /** `loadProgram`: copy `image` into RAM at `dest`, or fail when it does not
      fit. */
  function Load(m: Machine, image: seq<Byte>, dest: nat): (r: Result<Machine, LoadError>)
    requires Valid(m)
    requires dest + |image| < 0x1_0000_0000
    ensures r.Err? <==> dest + |image| > RAM_SIZE
    ensures r.Err? ==> r.error == LoadOverflow(dest, |image|)
    ensures r.Ok? ==> Valid(r.value)
    ensures r.Ok? ==> r.value == m.(ram := r.value.ram)
    ensures r.Ok? ==> r.value.ram[dest..dest + |image|] == image
    ensures r.Ok? ==> forall a :: 0 <= a < RAM_SIZE && !(dest <= a < dest + |image|) ==>
                        r.value.ram[a] == m.ram[a]
  {
    if dest + |image| > RAM_SIZE then
      Err(LoadOverflow(dest, |image|))
    else
      Ok(m.(ram := m.ram[..dest] + image + m.ram[dest + |image|..]))
  }

  datatype StartError = InvalidStartAddress(addr: Word)

  /** The entry check of `run`: the start address must lie inside RAM. */
  function Start(m: Machine, startAddr: Word): (r: Result<Machine, StartError>)
    ensures r.Err? <==> startAddr >= RAM_SIZE
    ensures r.Ok? ==> r.value == m.(pc := startAddr)
  {
    if startAddr >= RAM_SIZE then Err(InvalidStartAddress(startAddr))
    else Ok(m.(pc := startAddr))
  }

  /** Construction yields exactly the power-on states: one for every choice of
      the uninitialised RAM above the font and of the stack. */
  lemma PowerOnStates(m: Machine)
    ensures IsPowerOnState(m) <==> (Valid(m) && m == PowerOn(m.ram, m.stack))
  {
    if IsPowerOnState(m) {
      var p := PowerOn(m.ram, m.stack);
      assert p.ram == m.ram by {
        assert p.ram[..|FONT|] == m.ram[..|FONT|];
        forall a | 0 <= a < RAM_SIZE ensures p.ram[a] == m.ram[a] {
          if a < |FONT| {
            assert p.ram[a] == p.ram[..|FONT|][a];
            assert m.ram[a] == m.ram[..|FONT|][a];
          }
        }
      }
      assert p.v == m.v;
      assert p.fb == m.fb;
    }
  }

  /** Loading a program at or above the end of the font leaves the font
      intact. */
  lemma LoadKeepsFont(m: Machine, image: seq<Byte>, dest: nat)
    requires Valid(m) && m.ram[..|FONT|] == FONT
    requires |FONT| <= dest && dest + |image| <= RAM_SIZE
    ensures Load(m, image, dest).Ok?
    ensures Load(m, image, dest).value.ram[..|FONT|] == FONT
  {
    var r := Load(m, image, dest).value;
    forall a | 0 <= a < |FONT| ensures r.ram[a] == FONT[a] {
      assert m.ram[a] == m.ram[..|FONT|][a];
    }
  }
}
