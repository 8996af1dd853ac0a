/** The DRW sprite blit: the pixel-by-pixel loop as the interpreter runs it,
    and an independent description of its result by footprint. */
module Sprite {
  import opened Bytes
  import opened State

  /** What the blit loop changes: the flag register and the framebuffer. */
  datatype DrawState = DrawState(vf: Byte, fb: seq<Byte>)

  /** The value of coordinate register `r` while the loop runs: every pixel
      re-reads the register, so when `r` is VF it sees the running flag. */
  function Coord(v: seq<Byte>, vf: Byte, r: nat): Byte
    requires |v| == REG_COUNT && r < REG_COUNT
  {
    if r == FLAG then vf else v[r]
  }

  /** The pixel value a toggle writes: set pixels are cleared, clear pixels
      become 0xFF. */
  function Toggle(b: Byte): Byte
  {
    if b != 0 then 0 else 0xFF
  }

  /** Row-major index of screen position (px, py). */
  function PixelIndex(px: nat, py: nat): nat
  {
    px + py * FB_WIDTH
  }

  /** One iteration of the blit loop: sprite pixel `k` is bit `k % 8` of
      sprite row `k / 8`. */
  function DrawPixel(sprite: seq<Byte>, v: seq<Byte>, x: nat, y: nat, s: DrawState, k: nat): (r: DrawState)
    requires |v| == REG_COUNT && x < REG_COUNT && y < REG_COUNT
    requires k < 8 * |sprite| && |s.fb| == FB_SIZE
    ensures |r.fb| == FB_SIZE
    ensures !SpriteBit(sprite[k / 8], k % 8) ==> r == s
    ensures SpriteBit(sprite[k / 8], k % 8) ==>
      var p := PixelIndex((Coord(v, s.vf, x) + k % 8) % FB_WIDTH, (Coord(v, s.vf, y) + k / 8) % FB_HEIGHT);
      && p < FB_SIZE
      && r.fb == s.fb[p := Toggle(s.fb[p])]
      && r.vf == (if s.fb[p] != 0 then 1 else s.vf)
  {
    var row, col := k / 8, k % 8;
    if !SpriteBit(sprite[row], col) then s
    else
      var dx := (Coord(v, s.vf, x) + col) % FB_WIDTH;
      var dy := (Coord(v, s.vf, y) + row) % FB_HEIGHT;
      var p := PixelIndex(dx, dy);
      if s.fb[p] != 0 then DrawState(1, s.fb[p := 0])
      else DrawState(s.vf, s.fb[p := 0xFF])
  }

  /** The loop after its first `k` iterations. The flag only ever moves from
      its initial value to 1, and a framebuffer of cleared and set pixels
      stays one. */
  function DrawPixels(sprite: seq<Byte>, v: seq<Byte>, x: nat, y: nat, s0: DrawState, k: nat): (r: DrawState)
    requires |v| == REG_COUNT && x < REG_COUNT && y < REG_COUNT
    requires k <= 8 * |sprite| && |s0.fb| == FB_SIZE
    ensures |r.fb| == FB_SIZE
    ensures r.vf == s0.vf || r.vf == 1
    ensures FbBinary(s0.fb) ==> FbBinary(r.fb)
    decreases k
  {
    if k == 0 then s0
    else DrawPixel(sprite, v, x, y, DrawPixels(sprite, v, x, y, s0, k - 1), k - 1)
  }

  /** The whole blit: the flag is cleared first, then every sprite pixel is
      processed in order. */
  function Blit(sprite: seq<Byte>, v: seq<Byte>, x: nat, y: nat, fb: seq<Byte>): (r: DrawState)
    requires |v| == REG_COUNT && x < REG_COUNT && y < REG_COUNT && |fb| == FB_SIZE
    ensures |r.fb| == FB_SIZE
    ensures r.vf == 0 || r.vf == 1
    ensures FbBinary(fb) ==> FbBinary(r.fb)
    ensures |sprite| == 0 ==> r == DrawState(0, fb)
  {
    DrawPixels(sprite, v, x, y, DrawState(0, fb), 8 * |sprite|)
  }

  // ---------------------------------------------------------------------
  // Reference description for coordinates that do not move during the blit

  /** The screen index sprite pixel (r, c) lands on when drawn at (vx, vy). */
  function Target(vx: Byte, vy: Byte, r: nat, c: nat): nat
  {
    PixelIndex((vx + c) % FB_WIDTH, (vy + r) % FB_HEIGHT)
  }

  /** Sprite column that screen index `p` would come from. */
  function SourceCol(vx: Byte, p: nat): nat
  {
    (p % FB_WIDTH - vx) % FB_WIDTH
  }

  /** Sprite row that screen index `p` would come from. */
  function SourceRow(vy: Byte, p: nat): nat
  {
    (p / FB_WIDTH - vy) % FB_HEIGHT
  }

  /** Screen index `p` lies under a set bit of the sprite drawn at (vx, vy). */
  predicate Covered(sprite: seq<Byte>, vx: Byte, vy: Byte, p: nat)
  {
    var c, r := SourceCol(vx, p), SourceRow(vy, p);
    c < 8 && r < |sprite| && SpriteBit(sprite[r], c)
  }

  /** Covered by one of the first `k` sprite pixels. */
  predicate CoveredBelow(sprite: seq<Byte>, vx: Byte, vy: Byte, p: nat, k: nat)
  {
    Covered(sprite, vx, vy, p) && SourceRow(vy, p) * 8 + SourceCol(vx, p) < k
  }

  /** The framebuffer after the blit: every covered pixel toggled, every other
      pixel as it was. */
  function RefFrame(sprite: seq<Byte>, vx: Byte, vy: Byte, fb: seq<Byte>): (r: seq<Byte>)
    ensures |r| == |fb|
  {
    seq(|fb|, p requires 0 <= p < |fb| =>
      if Covered(sprite, vx, vy, p) then Toggle(fb[p]) else fb[p])
  }

  /** Some covered pixel was set before the blit. */
  predicate RefCollision(sprite: seq<Byte>, vx: Byte, vy: Byte, fb: seq<Byte>)
  {
    exists p :: 0 <= p < |fb| && Covered(sprite, vx, vy, p) && fb[p] != 0
  }

  /** Subtracting a multiple of the modulus and reducing gets the offset
      back. */
  lemma ModBack64(c: int, q: int)
    requires 0 <= c < 64
    ensures (c - 64 * q) % 64 == c
  {
  }

  lemma ModBack32(c: int, q: int)
    requires 0 <= c < 32
    ensures (c - 32 * q) % 32 == c
  {
  }

  /** A sprite pixel's target lies on screen and maps back to that pixel. */
  lemma TargetSource(vx: Byte, vy: Byte, r: nat, c: nat)
    requires r < 16 && c < 8
    ensures Target(vx, vy, r, c) < FB_SIZE
    ensures SourceCol(vx, Target(vx, vy, r, c)) == c
    ensures SourceRow(vy, Target(vx, vy, r, c)) == r
  {
    var dx, dy := (vx + c) % 64, (vy + r) % 32;
    var p := dx + dy * 64;
    assert p % 64 == dx && p / 64 == dy;
    ModBack64(c, (vx + c) / 64);
    assert dx - vx == c - 64 * ((vx + c) / 64);
    ModBack32(r, (vy + r) / 32);
    assert dy - vy == r - 32 * ((vy + r) / 32);
  }

  /** A screen index whose source lies inside the sprite box is that source
      pixel's target. */
  lemma SourceTarget(vx: Byte, vy: Byte, p: nat)
    requires p < FB_SIZE
    ensures Target(vx, vy, SourceRow(vy, p), SourceCol(vx, p)) == p
  {
    var px, py := p % 64, p / 64;
    var c, r := SourceCol(vx, p), SourceRow(vy, p);
    var qc := (px - vx) / 64;
    var qr := (py - vy) / 32;
    assert px - vx == 64 * qc + c;
    assert vx + c == px - 64 * qc;
    assert (vx + c) % 64 == px;
    assert py - vy == 32 * qr + r;
    assert vy + r == py - 32 * qr;
    assert (vy + r) % 32 == py;
  }

  /** Sprite pixel index `k` names row `k / 8` and column `k % 8`. */
  lemma PixelOrder(r: nat, c: nat, k: nat)
    requires c < 8 && r * 8 + c == k
    ensures k / 8 == r && k % 8 == c
  {
  }

  /** One loop iteration extends the reference description from the first `k`
      sprite pixels to the first `k + 1`. */
  lemma DrawPixelStep(sprite: seq<Byte>, v: seq<Byte>, x: nat, y: nat, fb: seq<Byte>, s: DrawState, k: nat)
    requires |v| == REG_COUNT && x < REG_COUNT && y < REG_COUNT && x != FLAG && y != FLAG
    requires |sprite| < 16 && k < 8 * |sprite| && |fb| == FB_SIZE && |s.fb| == FB_SIZE
    requires forall p :: 0 <= p < FB_SIZE ==>
      s.fb[p] == (if CoveredBelow(sprite, v[x], v[y], p, k) then Toggle(fb[p]) else fb[p])
    requires s.vf == (if exists p :: 0 <= p < FB_SIZE && CoveredBelow(sprite, v[x], v[y], p, k) && fb[p] != 0 then 1 else 0)
    ensures var s' := DrawPixel(sprite, v, x, y, s, k);
      && (forall p :: 0 <= p < FB_SIZE ==>
            s'.fb[p] == (if CoveredBelow(sprite, v[x], v[y], p, k + 1) then Toggle(fb[p]) else fb[p]))
      && s'.vf == (if exists p :: 0 <= p < FB_SIZE && CoveredBelow(sprite, v[x], v[y], p, k + 1) && fb[p] != 0 then 1 else 0)
  {
    var vx, vy := v[x], v[y];
    var row, col := k / 8, k % 8;
    var s' := DrawPixel(sprite, v, x, y, s, k);
    // Only screen index whose source pixel is `k` can be `Target(row, col)`.
    forall p | 0 <= p < FB_SIZE && Covered(sprite, vx, vy, p) && SourceRow(vy, p) * 8 + SourceCol(vx, p) == k
      ensures p == Target(vx, vy, row, col) && SpriteBit(sprite[row], col)
    {
      PixelOrder(SourceRow(vy, p), SourceCol(vx, p), k);
      SourceTarget(vx, vy, p);
    }
    if !SpriteBit(sprite[row], col) {
      assert s' == s;
      forall p | 0 <= p < FB_SIZE
        ensures CoveredBelow(sprite, vx, vy, p, k + 1) == CoveredBelow(sprite, vx, vy, p, k)
      {
      }
    } else {
      var t := Target(vx, vy, row, col);
      TargetSource(vx, vy, row, col);
      assert Covered(sprite, vx, vy, t);
      assert !CoveredBelow(sprite, vx, vy, t, k) && CoveredBelow(sprite, vx, vy, t, k + 1);
      assert s.fb[t] == fb[t];
      assert s'.fb == s.fb[t := Toggle(fb[t])];
      forall p | 0 <= p < FB_SIZE && p != t
        ensures CoveredBelow(sprite, vx, vy, p, k + 1) == CoveredBelow(sprite, vx, vy, p, k)
      {
      }
      if fb[t] != 0 {
        assert s'.vf == 1;
      } else {
        assert s'.vf == s.vf;
        if exists p :: 0 <= p < FB_SIZE && CoveredBelow(sprite, vx, vy, p, k + 1) && fb[p] != 0 {
          var p :| 0 <= p < FB_SIZE && CoveredBelow(sprite, vx, vy, p, k + 1) && fb[p] != 0;
          assert p != t;
          assert CoveredBelow(sprite, vx, vy, p, k);
        }
      }
    }
  }

  /** The first `k` loop iterations toggle exactly the pixels covered by the
      first `k` sprite pixels, and flag a collision exactly when one of those
      was set. */
  lemma {:induction false} DrawPixelsInvariant(sprite: seq<Byte>, v: seq<Byte>, x: nat, y: nat, fb: seq<Byte>, k: nat)
    requires |v| == REG_COUNT && x < REG_COUNT && y < REG_COUNT && x != FLAG && y != FLAG
    requires |sprite| < 16 && k <= 8 * |sprite| && |fb| == FB_SIZE
    ensures var s := DrawPixels(sprite, v, x, y, DrawState(0, fb), k);
      && (forall p :: 0 <= p < FB_SIZE ==>
            s.fb[p] == (if CoveredBelow(sprite, v[x], v[y], p, k) then Toggle(fb[p]) else fb[p]))
      && s.vf == (if exists p :: 0 <= p < FB_SIZE && CoveredBelow(sprite, v[x], v[y], p, k) && fb[p] != 0 then 1 else 0)
  {
    if k > 0 {
      DrawPixelsInvariant(sprite, v, x, y, fb, k - 1);
      DrawPixelStep(sprite, v, x, y, fb, DrawPixels(sprite, v, x, y, DrawState(0, fb), k - 1), k - 1);
    }
  }

  /** With coordinates taken from registers other than VF, the blit toggles
      exactly the pixels under set sprite bits (positions wrapped modulo 64
      and 32) and sets the flag exactly when one of them was set before. */
  lemma DrawMatchesReference(sprite: seq<Byte>, v: seq<Byte>, x: nat, y: nat, fb: seq<Byte>)
    requires |v| == REG_COUNT && x < REG_COUNT && y < REG_COUNT && x != FLAG && y != FLAG
    requires |sprite| < 16 && |fb| == FB_SIZE
    ensures Blit(sprite, v, x, y, fb).fb == RefFrame(sprite, v[x], v[y], fb)
    ensures Blit(sprite, v, x, y, fb).vf == (if RefCollision(sprite, v[x], v[y], fb) then 1 else 0)
  {
    var k := 8 * |sprite|;
    DrawPixelsInvariant(sprite, v, x, y, fb, k);
    forall p | 0 <= p < FB_SIZE
      ensures CoveredBelow(sprite, v[x], v[y], p, k) == Covered(sprite, v[x], v[y], p)
    {
      if Covered(sprite, v[x], v[y], p) {
        var r, c := SourceRow(v[y], p), SourceCol(v[x], p);
        assert r * 8 + c < k by {
          assert r + 1 <= |sprite|;
          assert r * 8 + 8 <= |sprite| * 8;
        }
      }
    }
  }

  /** Each set sprite bit toggles its wrapped target pixel. */
  lemma RefFrameToggles(sprite: seq<Byte>, vx: Byte, vy: Byte, fb: seq<Byte>, r: nat, c: nat)
    requires |fb| == FB_SIZE && |sprite| < 16
    requires r < |sprite| && c < 8 && SpriteBit(sprite[r], c)
    ensures Target(vx, vy, r, c) < FB_SIZE
    ensures RefFrame(sprite, vx, vy, fb)[Target(vx, vy, r, c)] == Toggle(fb[Target(vx, vy, r, c)])
  {
    TargetSource(vx, vy, r, c);
  }

  /** Drawing the same sprite at the same place twice restores a framebuffer
      of cleared and set pixels. */
  lemma RefFrameTwice(sprite: seq<Byte>, vx: Byte, vy: Byte, fb: seq<Byte>)
    requires FbBinary(fb)
    ensures RefFrame(sprite, vx, vy, RefFrame(sprite, vx, vy, fb)) == fb
  {
    var once := RefFrame(sprite, vx, vy, fb);
    var twice := RefFrame(sprite, vx, vy, once);
    forall p | 0 <= p < |fb| ensures twice[p] == fb[p] {
    }
  }

  /** On a blank screen the blit leaves exactly the sprite's set bits lit and
      reports no collision. */
  lemma RefFrameOnBlank(sprite: seq<Byte>, vx: Byte, vy: Byte, fb: seq<Byte>)
    requires forall p :: 0 <= p < |fb| ==> fb[p] == 0
    ensures !RefCollision(sprite, vx, vy, fb)
    ensures forall p :: 0 <= p < |fb| ==>
      RefFrame(sprite, vx, vy, fb)[p] == (if Covered(sprite, vx, vy, p) then 0xFF else 0)
  {
  }
}
