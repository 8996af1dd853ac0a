/** The DRW instruction as a whole, and its interplay with CLS. */
module DrawFacts {
  import opened Bytes
  import opened State
  import opened Decoder
  import opened Sprite
  import opened Interp

  /** With coordinates in registers other than VF, DRW toggles exactly the
      pixels under the set bits of RAM[I..I+n) drawn at (Vx, Vy) with
      wrap-around, sets VF exactly when one of them was set, changes nothing
      else and hands the new frame to the display. */
  lemma DrawExecute(m: Machine, x: Nibble, y: Nibble, n: Nibble, inp: Inputs)
    requires Valid(m) && m.pc < RAM_SIZE - 1
    requires x != FLAG && y != FLAG && m.i + n <= RAM_SIZE
    ensures var o, sprite := Execute(m, Drw(x, y, n), inp), m.ram[m.i..m.i + n];
      && o.Running?
      && o.m.fb == RefFrame(sprite, m.v[x], m.v[y], m.fb)
      && o.m.v == m.v[FLAG := if RefCollision(sprite, m.v[x], m.v[y], m.fb) then 1 else 0]
      && o.m == m.(v := o.m.v, fb := o.m.fb, pc := m.pc + 2)
      && o.events == [Draw(o.m.fb)]
  {
    var sprite := m.ram[m.i..m.i + n];
    var s := Blit(sprite, m.v, x, y, m.fb);
    assert s.fb == RefFrame(sprite, m.v[x], m.v[y], m.fb)
        && s.vf == (if RefCollision(sprite, m.v[x], m.v[y], m.fb) then 1 else 0) by {
      DrawMatchesReference(sprite, m.v, x, y, m.fb);
    }
    assert (if n == 0 then [] else sprite) == sprite;
    ExecutesDraw(m, x, y, n, inp);
    assert ExecDraw(m, x, y, n) == Running(m.(v := m.v[FLAG := s.vf], fb := s.fb, pc := m.pc + 2), [Draw(s.fb)]);
  }

  /** Executing Dxyn is running the draw routine. */
  lemma ExecutesDraw(m: Machine, x: Nibble, y: Nibble, n: Nibble, inp: Inputs)
    requires Valid(m) && m.pc < RAM_SIZE - 1
    ensures Execute(m, Drw(x, y, n), inp) == ExecDraw(m, x, y, n)
  {
  }

  /** Each set sprite bit (row r, column c) toggles the pixel at
      ((Vx + c) mod 64, (Vy + r) mod 32). */
  lemma DrawTogglesTarget(m: Machine, x: Nibble, y: Nibble, n: Nibble, inp: Inputs, r: nat, c: nat)
    requires Valid(m) && m.pc < RAM_SIZE - 1
    requires x != FLAG && y != FLAG && m.i + n <= RAM_SIZE
    requires r < n && c < 8 && SpriteBit(m.ram[m.i + r], c)
    ensures var p := PixelIndex((m.v[x] + c) % FB_WIDTH, (m.v[y] + r) % FB_HEIGHT);
      && p < FB_SIZE
      && Execute(m, Drw(x, y, n), inp).m.fb[p] == Toggle(m.fb[p])
  {
    var sprite := m.ram[m.i..m.i + n];
    DrawExecute(m, x, y, n, inp);
    RefFrameToggles(sprite, m.v[x], m.v[y], m.fb, r, c);
  }

  /** A zero-row sprite draws nothing and clears VF, whatever the
      registers. */
  lemma DrawNoRows(m: Machine, x: Nibble, y: Nibble, inp: Inputs)
    requires Valid(m) && m.pc < RAM_SIZE - 1
    ensures Execute(m, Drw(x, y, 0), inp)
         == Running(m.(v := m.v[FLAG := 0], pc := m.pc + 2), [Draw(m.fb)])
  {
  }

  /** Drawing the same sprite at the same place twice restores the
      framebuffer. */
  lemma DrawTwiceRestores(m: Machine, x: Nibble, y: Nibble, n: Nibble, inp: Inputs, inp': Inputs)
    requires Valid(m) && m.pc < RAM_SIZE - 3 && FbBinary(m.fb)
    requires x != FLAG && y != FLAG && m.i + n <= RAM_SIZE
    ensures Execute(m, Drw(x, y, n), inp).Running?
    ensures var once := Execute(m, Drw(x, y, n), inp).m;
      && Execute(once, Drw(x, y, n), inp').Running?
      && Execute(once, Drw(x, y, n), inp').m.fb == m.fb
  {
    var sprite := m.ram[m.i..m.i + n];
    DrawExecute(m, x, y, n, inp);
    var once := Execute(m, Drw(x, y, n), inp).m;
    DrawExecute(once, x, y, n, inp');
    RefFrameTwice(sprite, m.v[x], m.v[y], m.fb);
  }

  /** CLS followed by DRW leaves exactly the sprite's bit pattern lit at the
      drawn position, with no collision. */
  lemma ClsThenDraw(m: Machine, x: Nibble, y: Nibble, n: Nibble, inp: Inputs, inp': Inputs)
    requires Valid(m) && m.pc < RAM_SIZE - 3
    requires x != FLAG && y != FLAG && m.i + n <= RAM_SIZE
    ensures Execute(m, Cls, inp).Running?
    ensures var cleared := Execute(m, Cls, inp).m;
      var o, sprite := Execute(cleared, Drw(x, y, n), inp'), m.ram[m.i..m.i + n];
      && o.Running? && o.m.v[FLAG] == 0
      && forall p :: 0 <= p < FB_SIZE ==>
           o.m.fb[p] == (if Covered(sprite, m.v[x], m.v[y], p) then 0xFF else 0)
  {
    var cleared := Execute(m, Cls, inp).m;
    var sprite := m.ram[m.i..m.i + n];
    DrawExecute(cleared, x, y, n, inp');
    RefFrameOnBlank(sprite, m.v[x], m.v[y], cleared.fb);
  }

  /** A coordinate held in VF follows the running collision flag. Drawing the
      row 0xC0 at (VF, V0) = (0, 0) over pixels 0xFF, 0, 0: the first pixel
      collides at column 0 and raises VF to 1, so the second pixel lands at
      column 1 + 1 = 2 instead of column 1. */
  lemma DrawLiveFlagSample(m: Machine, inp: Inputs)
    requires Valid(m) && m.pc < RAM_SIZE - 1 && m.i < RAM_SIZE
    requires m.v[FLAG] == 0 && m.v[0] == 0 && m.ram[m.i] == 0xC0
    requires m.fb[0] == 0xFF && m.fb[1] == 0 && m.fb[2] == 0
    ensures var o := Execute(m, Drw(FLAG, 0, 1), inp);
      && o.Running?
      && o.m.fb[0] == 0 && o.m.fb[1] == 0 && o.m.fb[2] == 0xFF
      && o.m.v[FLAG] == 1
  {
    SampleDraw(m);
    ExecutesDraw(m, FLAG, 0, 1, inp);
  }

  /** The sample above at the level of the draw routine. */
  lemma SampleDraw(m: Machine)
    requires Valid(m) && m.pc < RAM_SIZE - 1 && m.i < RAM_SIZE
    requires m.v[FLAG] == 0 && m.v[0] == 0 && m.ram[m.i] == 0xC0
    requires m.fb[0] == 0xFF && m.fb[1] == 0 && m.fb[2] == 0
    ensures var fb := m.fb[0 := 0][2 := 0xFF];
      ExecDraw(m, FLAG, 0, 1) == Running(m.(v := m.v[FLAG := 1], fb := fb, pc := m.pc + 2), [Draw(fb)])
  {
    var sprite := m.ram[m.i..m.i + 1];
    var s := Blit(sprite, m.v, FLAG, 0, m.fb);
    assert s == DrawState(1, m.fb[0 := 0][2 := 0xFF]) by {
      assert sprite == [0xC0];
      SampleBlit(m.v, m.fb);
    }
    assert ExecDraw(m, FLAG, 0, 1) == Running(m.(v := m.v[FLAG := s.vf], fb := s.fb, pc := m.pc + 2), [Draw(s.fb)]);
  }

  /** Drawing the one-row sprite 0xC0 at (VF, V0) with VF = V0 = 0: the
      first pixel turns a lit pixel off and sets VF, so the second pixel
      lands at column 1 + 1 = 2 instead of column 1. */
  lemma SampleBlit(v: seq<Byte>, fb: seq<Byte>)
    requires |v| == REG_COUNT && v[FLAG] == 0 && v[0] == 0
    requires |fb| == FB_SIZE && fb[0] == 0xFF && fb[1] == 0 && fb[2] == 0
    ensures Blit([0xC0], v, FLAG, 0, fb) == DrawState(1, fb[0 := 0][2 := 0xFF])
  {
    var sprite: seq<Byte> := [0xC0];
    var s0 := DrawState(0, fb);
    C0Bits();
    var s1 := DrawPixels(sprite, v, FLAG, 0, s0, 1);
    assert s1 == DrawState(1, fb[0 := 0]);
    var s2 := DrawPixels(sprite, v, FLAG, 0, s0, 2);
    assert s2 == DrawState(1, fb[0 := 0][2 := 0xFF]);
    assert DrawPixels(sprite, v, FLAG, 0, s0, 3) == s2;
    assert DrawPixels(sprite, v, FLAG, 0, s0, 4) == s2;
    assert DrawPixels(sprite, v, FLAG, 0, s0, 5) == s2;
    assert DrawPixels(sprite, v, FLAG, 0, s0, 6) == s2;
    assert DrawPixels(sprite, v, FLAG, 0, s0, 7) == s2;
    assert DrawPixels(sprite, v, FLAG, 0, s0, 8) == s2;
  }

  /** The bits of the sprite row 0xC0, most significant first. */
  lemma C0Bits()
    ensures SpriteBit(0xC0, 0) && SpriteBit(0xC0, 1)
    ensures forall c :: 2 <= c < 8 ==> !SpriteBit(0xC0, c)
  {
    assert !SpriteBit(0xC0, 2) && !SpriteBit(0xC0, 3) && !SpriteBit(0xC0, 4);
    assert !SpriteBit(0xC0, 5) && !SpriteBit(0xC0, 6) && !SpriteBit(0xC0, 7);
  }
}
