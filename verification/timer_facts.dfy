/** The delay and sound timers and the tone events. */
module TimerFacts {
  import opened State
  import opened Decoder
  import opened Interp

  /** The machine after `k` consecutive 60 Hz ticks. */
  function Ticks(m: Machine, k: nat): Machine
    decreases k
  {
    if k == 0 then m else TickTimers(Ticks(m, k - 1), true).0
  }

  /** After `k` ticks each timer has counted down by `k`, stopping at 0, and
      nothing else has changed. */
  lemma {:induction false} TimersCountDown(m: Machine, k: nat)
    ensures Ticks(m, k).delay == (if m.delay >= k then m.delay - k else 0)
    ensures Ticks(m, k).sound == (if m.sound >= k then m.sound - k else 0)
    ensures Ticks(m, k) == m.(delay := Ticks(m, k).delay, sound := Ticks(m, k).sound)
  {
    if k > 0 {
      TimersCountDown(m, k - 1);
    }
  }

  /** A delay timer of 5 reaches 0 after five ticks and stays there. */
  lemma DelayFromFive(m: Machine)
    requires m.delay == 5
    ensures Ticks(m, 1).delay == 4 && Ticks(m, 4).delay == 1
    ensures Ticks(m, 5).delay == 0 && Ticks(m, 6).delay == 0
  {
    TimersCountDown(m, 1);
    TimersCountDown(m, 4);
    TimersCountDown(m, 5);
    TimersCountDown(m, 6);
  }

  /** Without a due tick the timers are untouched and no tone event is
      emitted. */
  lemma NoTickNoChange(m: Machine)
    ensures TickTimers(m, false) == (m, [])
  {
  }

  /** Fx07 copies the delay timer into Vx. */
  lemma DelayTimerRead(m: Machine, x: Nibble, inp: Inputs)
    requires Valid(m) && m.pc < RAM_SIZE - 1
    ensures Execute(m, LdVxDt(x), inp)
         == Running(m.(v := m.v[x := m.delay], pc := m.pc + 2), [])
  {
  }

  /** Fx15 loads the delay timer from Vx, so a following Fx07 reads the same
      value back when no tick falls in between. */
  lemma DelayTimerWrite(m: Machine, x: Nibble, y: Nibble, inp: Inputs)
    requires Valid(m) && m.pc < RAM_SIZE - 3
    ensures Execute(m, LdDtVx(x), inp) == Running(m.(delay := m.v[x], pc := m.pc + 2), [])
    ensures Execute(Execute(m, LdDtVx(x), inp).m, LdVxDt(y), inp).m.v[y] == m.v[x]
  {
  }

  /** Fx18 loads the sound timer from Vx and starts the tone exactly when
      the new value is nonzero. */
  lemma SoundTimerWrite(m: Machine, x: Nibble, inp: Inputs)
    requires Valid(m) && m.pc < RAM_SIZE - 1
    ensures var o := Execute(m, LdStVx(x), inp);
      && o.Running? && o.m == m.(sound := m.v[x], pc := m.pc + 2)
      && (o.events == [ToneStart] <==> m.v[x] != 0)
      && (o.events == [] <==> m.v[x] == 0)
  {
  }

  /** Fx18 with Vx = 0 clears the sound timer without stopping the tone, and
      no run of ticks from the cleared timer emits ToneStop: the tone goes on
      until a later Fx18 loads a nonzero value and that count runs out. */
  lemma SilencingKeepsTone(m: Machine, x: Nibble, inp: Inputs, k: nat)
    requires Valid(m) && m.pc < RAM_SIZE - 1 && m.v[x] == 0
    ensures var o := Execute(m, LdStVx(x), inp);
      && o.Running? && o.m.sound == 0 && o.events == []
      && ToneStop !in TickTimers(Ticks(o.m, k), true).1
  {
    var o := Execute(m, LdStVx(x), inp);
    TimersCountDown(o.m, k);
  }

  /** A step's tick happens before the instruction: the instruction sees
      the decremented timers. */
  lemma StepTicksFirst(m: Machine, x: Nibble, inp: Inputs)
    requires Valid(m) && m.pc < RAM_SIZE - 1
    requires Fetch(m) == Encode(LdVxDt(x))
    ensures Step(m, inp).Running?
    ensures Step(m, inp).m.v[x] == (if inp.timerTickDue && m.delay > 0 then m.delay - 1 else m.delay)
  {
    DecodeEncode(LdVxDt(x));
    var (t, ev) := TickTimers(m, inp.timerTickDue);
    assert Valid(t) && t.pc == m.pc && t.ram == m.ram;
    assert Fetch(t) == Fetch(m);
    DelayTimerRead(t, x, inp);
    var o := Execute(t, LdVxDt(x), inp);
    assert Step(m, inp) == After(ev, o);
  }
}
