/** Control flow: jumps, the call stack and the conditional skips. */
module FlowFacts {
  import opened Bytes
  import opened State
  import opened Decoder
  import opened Interp

  /** 00E0 blanks every pixel, hands the blank frame to the display and
      changes nothing but the framebuffer and PC. */
  lemma ClsClears(m: Machine, inp: Inputs)
    requires Valid(m) && m.pc < RAM_SIZE - 1
    ensures var o := Execute(m, Cls, inp);
      && o.Running? && o.m == m.(fb := o.m.fb, pc := m.pc + 2)
      && |o.m.fb| == FB_SIZE
      && (forall p :: 0 <= p < FB_SIZE ==> o.m.fb[p] == 0)
      && o.events == [Draw(o.m.fb)]
  {
  }

  /** Annn sets I to nnn; nothing else changes. */
  lemma LdITarget(m: Machine, a: Addr, inp: Inputs)
    requires Valid(m) && m.pc < RAM_SIZE - 1
    ensures Execute(m, LdI(a), inp) == Running(m.(i := a, pc := m.pc + 2), [])
  {
  }

  /** 1nnn sets PC to nnn without the usual advance; nothing else
      changes. */
  lemma JumpTarget(m: Machine, a: Addr, inp: Inputs)
    requires Valid(m) && m.pc < RAM_SIZE - 1
    ensures Execute(m, Jp(a), inp) == Running(m.(pc := a), [])
  {
  }

  /** Bnnn sets PC to nnn + V0 (no wrap-around is possible); nothing else
      changes. */
  lemma JumpOffsetTarget(m: Machine, a: Addr, inp: Inputs)
    requires Valid(m) && m.pc < RAM_SIZE - 1
    ensures Execute(m, JpV0(a), inp) == Running(m.(pc := a + m.v[0]), [])
    ensures Execute(m, JpV0(a), inp).m.pc <= 0xFFF + 0xFF
  {
  }

  /** Every 0nnn other than 00E0 and 00EE is ignored: the step only moves on
      to the next instruction. */
  lemma SysIsNoOp(m: Machine, op: Word, inp: Inputs)
    requires Valid(m) && m.pc < RAM_SIZE - 1
    requires op < 0x1000 && op != 0x00E0 && op != 0x00EE
    ensures Execute(m, Decode(op), inp) == Running(m.(pc := m.pc + 2), [])
  {
  }

  /** A CALL followed by a RET comes back to the instruction after the CALL
      with the stack pointer restored; only the stack slot used changes. */
  lemma CallThenRet(m: Machine, a: Addr, inp: Inputs, inp': Inputs)
    requires Valid(m) && m.pc < RAM_SIZE - 1 && a < RAM_SIZE - 1
    requires m.sp < STACK_LEVELS
    ensures Execute(m, Call(a), inp).Running?
    ensures var called := Execute(m, Call(a), inp).m;
      && called.pc == a && called.sp == m.sp + 1
      && var back := Execute(called, Ret, inp');
      && back.Running? && back.events == []
      && back.m == m.(pc := m.pc + 2, stack := m.stack[m.sp := m.pc])
  {
  }

  /** CALL on a full stack and RET on an empty one are the two stack faults,
      and neither is one of the interpreter's thrown errors. */
  lemma StackFaults(m: Machine, a: Addr, inp: Inputs)
    requires Valid(m) && m.pc < RAM_SIZE - 1
    ensures Execute(m, Call(a), inp).Faulted? <==> m.sp == STACK_LEVELS
    ensures Execute(m, Ret, inp).Faulted? <==> m.sp == 0
    ensures Execute(m, Call(a), inp).Faulted? ==> !Execute(m, Call(a), inp).fault.Thrown()
    ensures Execute(m, Ret, inp).Faulted? ==> !Execute(m, Ret, inp).fault.Thrown()
  {
  }

  /** The outcome of a skip instruction: PC advanced by 4 when `taken` and
      by 2 otherwise, nothing else changed. */
  predicate SkipsIff(m: Machine, o: Outcome, taken: bool)
  {
    && o.Running? && o.events == []
    && o.m == m.(pc := o.m.pc)
    && (o.m.pc == m.pc + 4 || o.m.pc == m.pc + 2)
    && (o.m.pc == m.pc + 4 <==> taken)
  }

  /** 3xkk skips when Vx equals kk, 4xkk when it does not. */
  lemma SkipOnImmediate(m: Machine, x: Nibble, kk: Byte, inp: Inputs)
    requires Valid(m) && m.pc < RAM_SIZE - 1
    ensures SkipsIff(m, Execute(m, SeImm(x, kk), inp), m.v[x] == kk)
    ensures SkipsIff(m, Execute(m, SneImm(x, kk), inp), m.v[x] != kk)
  {
  }

  /** 5xy0 skips when Vx equals Vy. */
  lemma SkipOnEqualRegs(m: Machine, x: Nibble, y: Nibble, inp: Inputs)
    requires Valid(m) && m.pc < RAM_SIZE - 1
    ensures SkipsIff(m, Execute(m, SeReg(x, y), inp), m.v[x] == m.v[y])
  {
  }

  /** 9xy0 skips when Vx differs from Vy. */
  lemma SkipOnUnequalRegs(m: Machine, x: Nibble, y: Nibble, inp: Inputs)
    requires Valid(m) && m.pc < RAM_SIZE - 1
    ensures SkipsIff(m, Execute(m, SneReg(x, y), inp), m.v[x] != m.v[y])
  {
  }

  /** Ex9E skips when the key named by Vx is held, ExA1 when it is not. */
  lemma SkipOnKey(m: Machine, x: Nibble, inp: Inputs)
    requires Valid(m) && m.pc < RAM_SIZE - 1
    ensures SkipsIff(m, Execute(m, Skp(x), inp), m.v[x] <= 15 && m.v[x] in inp.held)
    ensures SkipsIff(m, Execute(m, Sknp(x), inp), !(m.v[x] <= 15 && m.v[x] in inp.held))
  {
  }

  /** Fx0A stores the code of the key the wait returned, always a code
      0..15. */
  lemma KeyWait(m: Machine, x: Nibble, inp: Inputs)
    requires Valid(m) && m.pc < RAM_SIZE - 1
    ensures Execute(m, LdVxKey(x), inp)
         == Running(m.(v := m.v[x := inp.pressed], pc := m.pc + 2), [])
    ensures Execute(m, LdVxKey(x), inp).m.v[x] <= 15
  {
  }

  /** A key code above 15 is never pressed, so SKP never skips on it and
      SKNP always does. */
  lemma NoKeyAbove15(m: Machine, x: Nibble, inp: Inputs)
    requires Valid(m) && m.pc < RAM_SIZE - 1 && m.v[x] > 15
    ensures Execute(m, Skp(x), inp).m.pc == m.pc + 2
    ensures Execute(m, Sknp(x), inp).m.pc == m.pc + 4
  {
  }
}
