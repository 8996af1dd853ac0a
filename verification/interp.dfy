/** One iteration of the interpreter's main loop: the 60 Hz timer tick, the
    fetch with its range check, and the execution of the decoded
    instruction. Time, randomness and the keyboard are inputs of a step;
    drawing and the tone are events it emits. */
module Interp {
  import opened Bytes
  import opened Results
  import opened State
  import opened Decoder
  import opened Sprite
  import opened Memory

  /** A logical key code. */
  type Key = k: int | 0 <= k < 16

  /** Everything a step takes from the outside world: whether the 60 Hz timer
      interval has elapsed, the random byte RND uses, the keys held right now,
      and the key a blocking Fx0A wait would return. */
  datatype Inputs = Inputs(timerTickDue: bool, rnd: Byte, held: set<int>, pressed: Key)

  /** The keyboard query: only codes 0..15 name a key. */
  predicate KeyPressed(held: set<int>, k: Byte)
    ensures k <= 15 ==> (KeyPressed(held, k) <==> k in held)
    ensures k > 15 ==> !KeyPressed(held, k)
  {
    k <= 15 && k in held
  }

  /** Side effects on the peripherals: a frame handed to the display, and the
      tone switched on or off. */
  datatype Event = Draw(frame: seq<Byte>) | ToneStart | ToneStop

  /** Why a step stops the machine. `PCOutOfRange` and `IllegalInstruction`
      are the errors the interpreter throws; the other three stand for
      accesses whose behaviour the interpreter leaves undefined (a push onto
      a full stack, a pop from an empty one, RAM accessed past its end). */
  datatype Fault =
    | PCOutOfRange(pc: Word)
    | IllegalInstruction(op: Word)
    | StackOverflow
    | StackUnderflow
    | MemOutOfBounds
  {
    predicate Thrown()
    {
      PCOutOfRange? || IllegalInstruction?
    }
  }

  /** The result of a step: the next machine, or the fault that ends the run,
      together with the events emitted on the way. */
  datatype Outcome =
    | Running(m: Machine, events: seq<Event>)
    | Faulted(fault: Fault, events: seq<Event>)

  /** An outcome with `ev` emitted before its own events. */
  function After(ev: seq<Event>, o: Outcome): (r: Outcome)
    ensures r.Running? == o.Running? && r.events == ev + o.events
    ensures r.Running? ==> r.m == o.m
    ensures r.Faulted? ==> r.fault == o.fault
  {
    match o
    case Running(m, e) => Running(m, ev + e)
    case Faulted(f, e) => Faulted(f, ev + e)
  }

  /** The timer section of the loop: when the 60 Hz interval has elapsed each
      nonzero timer counts down by one, and the tone stops when the sound
      timer reaches zero. */
  function TickTimers(m: Machine, due: bool): (r: (Machine, seq<Event>))
    ensures r.0 == m.(delay := r.0.delay, sound := r.0.sound)
    ensures r.0.delay == (if due && m.delay > 0 then m.delay - 1 else m.delay)
    ensures r.0.sound == (if due && m.sound > 0 then m.sound - 1 else m.sound)
    ensures r.1 == (if due && m.sound == 1 then [ToneStop] else [])
  {
    if !due then (m, [])
    else
      var d := if m.delay != 0 then m.delay - 1 else m.delay;
      if m.sound != 0 then
        var s := m.sound - 1;
        (m.(delay := d, sound := s), if s == 0 then [ToneStop] else [])
      else
        (m.(delay := d), [])
  }

  /** The instruction at PC: RAM[PC] is the high byte, RAM[PC + 1] the low
      one. */
  function Fetch(m: Machine): (op: Word)
    requires Valid(m) && m.pc < RAM_SIZE - 1
    ensures op / 0x100 == m.ram[m.pc] && op % 0x100 == m.ram[m.pc + 1]
  {
    m.ram[m.pc] as int * 0x100 + m.ram[m.pc + 1]
  }

  /** The next PC of a skip instruction: one more instruction skipped when
      the condition holds. */
  function SkipIf(m: Machine, cond: bool): Word
    requires m.pc < RAM_SIZE - 1
  {
    if cond then m.pc + 4 else m.pc + 2
  }

  /** 8xy4: a 16-bit sum; the carry goes to VF first, then the low byte of
      the sum to Vx (so for x = F the sum wins). */
  function AddWithCarry(v: seq<Byte>, x: Nibble, y: Nibble): (r: seq<Byte>)
    requires |v| == REG_COUNT
    ensures |r| == REG_COUNT
    ensures r[x] == (v[x] as int + v[y]) % 256
    ensures x != FLAG ==> r[FLAG] == (if v[x] as int + v[y] > 255 then 1 else 0)
    ensures forall j :: 0 <= j < REG_COUNT && j != x && j != FLAG ==> r[j] == v[j]
  {
    var res := v[x] as int + v[y];
    var v1 := v[FLAG := if res > 255 then 1 else 0];
    v1[x := Wrap8(res)]
  }

  /** 8xy5: a 16-bit difference; VF = 1 when it did not wrap, then its low
      byte goes to Vx. */
  function SubWithBorrow(v: seq<Byte>, x: Nibble, y: Nibble): (r: seq<Byte>)
    requires |v| == REG_COUNT
    ensures |r| == REG_COUNT
    ensures r[x] == (v[x] as int - v[y]) % 256
    ensures x != FLAG ==> r[FLAG] == (if v[x] >= v[y] then 1 else 0)
    ensures forall j :: 0 <= j < REG_COUNT && j != x && j != FLAG ==> r[j] == v[j]
  {
    Wrap8OfWrap16(v[x] as int - v[y]);
    var res := Wrap16(v[x] as int - v[y]);
    var v1 := v[FLAG := if res <= 255 then 1 else 0];
    v1[x := Wrap8(res)]
  }

  /** 8xy7: as 8xy5 with the operands swapped. */
  function SubReversed(v: seq<Byte>, x: Nibble, y: Nibble): (r: seq<Byte>)
    requires |v| == REG_COUNT
    ensures |r| == REG_COUNT
    ensures r[x] == (v[y] as int - v[x]) % 256
    ensures x != FLAG ==> r[FLAG] == (if v[y] >= v[x] then 1 else 0)
    ensures forall j :: 0 <= j < REG_COUNT && j != x && j != FLAG ==> r[j] == v[j]
  {
    Wrap8OfWrap16(v[y] as int - v[x]);
    var res := Wrap16(v[y] as int - v[x]);
    var v1 := v[FLAG := if res <= 255 then 1 else 0];
    v1[x := Wrap8(res)]
  }

  /** 8xy6: VF = bit 0 of Vx, then Vx is shifted right, reading Vx after the
      flag was written. */
  function ShiftRight(v: seq<Byte>, x: Nibble): (r: seq<Byte>)
    requires |v| == REG_COUNT
    ensures |r| == REG_COUNT
    ensures x != FLAG ==> r[FLAG] == v[x] % 2 && r[x] == v[x] / 2
    ensures x == FLAG ==> r[FLAG] == 0
    ensures forall j :: 0 <= j < REG_COUNT && j != x && j != FLAG ==> r[j] == v[j]
  {
    AndOne(v[x]);
    var v1 := v[FLAG := if And8(v[x], 0x1) != 0 then 1 else 0];
    v1[x := v1[x] / 2]
  }

  /** 8xyE: VF = bit 3 of Vx (mask 0x8), then Vx is shifted left with 8-bit
      truncation, reading Vx after the flag was written. */
  function ShiftLeft(v: seq<Byte>, x: Nibble): (r: seq<Byte>)
    requires |v| == REG_COUNT
    ensures |r| == REG_COUNT
    ensures x != FLAG ==> r[FLAG] == (v[x] / 8) % 2 && r[x] == (2 * v[x] as int) % 256
    ensures x == FLAG ==> r[FLAG] == 2 * ((v[x] / 8) % 2)
    ensures forall j :: 0 <= j < REG_COUNT && j != x && j != FLAG ==> r[j] == v[j]
  {
    AndEight(v[x]);
    var v1 := v[FLAG := if And8(v[x], 0x8) != 0 then 1 else 0];
    v1[x := Wrap8(v1[x] * 2)]
  }

  /** 00EE: pop the return address and continue after the call. Popping an
      empty stack is undefined in the interpreter (the 8-bit stack pointer
      wraps to 255). */
  function ExecRet(m: Machine): (r: Outcome)
    requires Valid(m)
    ensures r.Running? ==> Valid(r.m) && r.m.fb == m.fb
    ensures r.Faulted? <==> m.sp == 0
    ensures r.Faulted? ==> r == Faulted(StackUnderflow, [])
    ensures r.events == []
  {
    if m.sp == 0 then Faulted(StackUnderflow, [])
    else Running(m.(sp := m.sp - 1, pc := Wrap16(m.stack[m.sp - 1] as int + 2)), [])
  }

  /** 2nnn: push the address of the CALL itself and jump. Pushing onto a full
      stack is undefined in the interpreter. */
  function ExecCall(m: Machine, a: Addr): (r: Outcome)
    requires Valid(m)
    ensures r.Running? ==> Valid(r.m) && r.m.fb == m.fb
    ensures r.Faulted? <==> m.sp == STACK_LEVELS
    ensures r.Faulted? ==> r == Faulted(StackOverflow, [])
    ensures r.events == []
  {
    if m.sp >= STACK_LEVELS then Faulted(StackOverflow, [])
    else Running(m.(stack := m.stack[m.sp := m.pc], sp := m.sp + 1, pc := a), [])
  }

  /** Dxyn: blit the `n` sprite rows at RAM[I..I+n), store the collision flag
      in VF and hand the frame to the display. */
  function ExecDraw(m: Machine, x: Nibble, y: Nibble, n: Nibble): (r: Outcome)
    requires Valid(m) && m.pc < RAM_SIZE - 1
    ensures r.Running? ==> Valid(r.m)
    ensures r.Running? && FbBinary(m.fb) ==> FbBinary(r.m.fb)
    ensures r.Faulted? <==> n > 0 && m.i + n > RAM_SIZE
    ensures r.Faulted? ==> r == Faulted(MemOutOfBounds, [])
    ensures r.Faulted? ==> !r.fault.Thrown()
    ensures r.Running? ==> r.events == [Draw(r.m.fb)]
  {
    if n > 0 && m.i + n > RAM_SIZE then Faulted(MemOutOfBounds, [])
    else
      var sprite := if n == 0 then [] else m.ram[m.i..m.i + n];
      var s := Blit(sprite, m.v, x, y, m.fb);
      Running(m.(v := m.v[FLAG := s.vf], fb := s.fb, pc := m.pc + 2), [Draw(s.fb)])
  }

  /** Fx33: the hundreds, tens and units digits of Vx at RAM[I], RAM[I+1],
      RAM[I+2]. */
  function ExecBcd(m: Machine, x: Nibble): (r: Outcome)
    requires Valid(m) && m.pc < RAM_SIZE - 1
    ensures r.Running? ==> Valid(r.m) && r.m.fb == m.fb
    ensures r.Faulted? <==> m.i + 2 >= RAM_SIZE
    ensures r.Faulted? ==> r == Faulted(MemOutOfBounds, [])
    ensures r.events == []
  {
    if m.i + 2 >= RAM_SIZE then Faulted(MemOutOfBounds, [])
    else
      var b := m.v[x];
      var ram := m.ram[m.i := b / 100][m.i + 1 := (b / 10) % 10][m.i + 2 := b % 100 % 10];
      Running(m.(ram := ram, pc := m.pc + 2), [])
  }

  /** Fx55: V0..Vx to RAM[I..I+x]; I itself is left alone. */
  function ExecStore(m: Machine, x: Nibble): (r: Outcome)
    requires Valid(m) && m.pc < RAM_SIZE - 1
    ensures r.Running? ==> Valid(r.m) && r.m.fb == m.fb
    ensures r.Faulted? <==> m.i + x >= RAM_SIZE
    ensures r.Faulted? ==> r == Faulted(MemOutOfBounds, [])
    ensures r.events == []
  {
    if m.i + x >= RAM_SIZE then Faulted(MemOutOfBounds, [])
    else Running(m.(ram := StoreUpTo(m.ram, m.i, m.v, x + 1), pc := m.pc + 2), [])
  }

  /** Fx65: RAM[I..I+x] to V0..Vx; I itself is left alone. */
  function ExecLoad(m: Machine, x: Nibble): (r: Outcome)
    requires Valid(m) && m.pc < RAM_SIZE - 1
    ensures r.Running? ==> Valid(r.m) && r.m.fb == m.fb
    ensures r.Faulted? <==> m.i + x >= RAM_SIZE
    ensures r.Faulted? ==> r == Faulted(MemOutOfBounds, [])
    ensures r.events == []
  {
    if m.i + x >= RAM_SIZE then Faulted(MemOutOfBounds, [])
    else Running(m.(v := LoadUpTo(m.v, m.ram, m.i, x + 1), pc := m.pc + 2), [])
  }

  /** The instructions whose only effect is on the registers (and PC + 2). */
  predicate IsRegisterOp(ins: Instr)
  {
    || ins.LdImm? || ins.AddImm? || ins.LdReg? || ins.Or? || ins.And? || ins.Xor?
    || ins.AddReg? || ins.Sub? || ins.Shr? || ins.Subn? || ins.Shl? || ins.Rnd?
    || ins.LdVxDt? || ins.LdVxKey?
  }

  /** The register instructions that write a carry, borrow or shift flag. */
  predicate SetsFlag(ins: Instr)
  {
    ins.AddReg? || ins.Sub? || ins.Shr? || ins.Subn? || ins.Shl?
  }

  /** The registers after an instruction that only writes registers and
      advances PC by 2; any other instruction leaves them alone. */
  function RegisterOp(m: Machine, ins: Instr, inp: Inputs): (r: seq<Byte>)
    requires Valid(m)
    ensures |r| == REG_COUNT
    ensures IsRegisterOp(ins) ==>
      forall j :: 0 <= j < REG_COUNT && j != ins.x && j != FLAG ==> r[j] == m.v[j]
    ensures IsRegisterOp(ins) && !SetsFlag(ins) ==> r[FLAG] == m.v[FLAG] || ins.x == FLAG
    ensures ins.LdVxKey? ==> r[ins.x] <= 15
    ensures !IsRegisterOp(ins) ==> r == m.v
  {
    var v := m.v;
    match ins
    case LdImm(x, kk) => v[x := kk]
    case AddImm(x, kk) => v[x := Wrap8(v[x] + kk)]
    case LdReg(x, y) => v[x := v[y]]
    case Or(x, y) => v[x := Or8(v[x], v[y])]
    case And(x, y) => v[x := And8(v[x], v[y])]
    case Xor(x, y) => v[x := Xor8(v[x], v[y])]
    case AddReg(x, y) => AddWithCarry(v, x, y)
    case Sub(x, y) => SubWithBorrow(v, x, y)
    case Shr(x, _) => ShiftRight(v, x)
    case Subn(x, y) => SubReversed(v, x, y)
    case Shl(x, _) => ShiftLeft(v, x)
    case Rnd(x, kk) => v[x := And8(inp.rnd, kk)]
    case LdVxDt(x) => v[x := m.delay]
    case LdVxKey(x) => v[x := inp.pressed]
    case _ => v
  }

  /** A register instruction: the new registers and PC + 2, nothing else. */
  function ExecRegister(m: Machine, ins: Instr, inp: Inputs): (r: Outcome)
    requires Valid(m) && m.pc < RAM_SIZE - 1
    ensures r.Running? && r.events == [] && Valid(r.m)
    ensures r.m == m.(v := r.m.v, pc := m.pc + 2)
  {
    Running(m.(v := RegisterOp(m, ins, inp), pc := m.pc + 2), [])
  }

  /** The conditional skips 3xkk, 4xkk, 5xy0, 9xy0, Ex9E and ExA1. */
  predicate IsSkip(ins: Instr)
  {
    ins.SeImm? || ins.SneImm? || ins.SeReg? || ins.SneReg? || ins.Skp? || ins.Sknp?
  }

  /** Whether a conditional skip skips, given the registers and the held keys. */
  predicate SkipTaken(v: seq<Byte>, ins: Instr, held: set<int>)
    requires |v| == REG_COUNT && IsSkip(ins)
  {
    if ins.SeImm? then v[ins.x] == ins.kk
    else if ins.SneImm? then v[ins.x] != ins.kk
    else if ins.SeReg? then v[ins.x] == v[ins.y]
    else if ins.SneReg? then v[ins.x] != v[ins.y]
    else if ins.Skp? then KeyPressed(held, v[ins.x])
    else !KeyPressed(held, v[ins.x])
  }

  /** The instructions that only clear the screen or move the PC (and the
      stack). */
  predicate IsFlowOp(ins: Instr)
  {
    || ins.Cls? || ins.Ret? || ins.Sys? || ins.Jp? || ins.Call? || IsSkip(ins)
    || ins.LdI? || ins.JpV0?
  }

  /** 00E0, 00EE, 0nnn, 1nnn, 2nnn, the skips, Annn and Bnnn. Only 00E0
      emits an event: the cleared frame. */
  function ExecFlow(m: Machine, ins: Instr, inp: Inputs): (r: Outcome)
    requires Valid(m) && m.pc < RAM_SIZE - 1 && IsFlowOp(ins)
    ensures r.Running? ==> Valid(r.m)
    ensures r.Running? && !ins.Cls? ==> r.m.fb == m.fb
    ensures ins.Cls? ==> r.Running? && FbBinary(r.m.fb)
    ensures r.Faulted? ==> r == Faulted(StackUnderflow, []) || r == Faulted(StackOverflow, [])
    ensures r.Faulted? ==> !r.fault.Thrown()
    ensures r.events == (if ins.Cls? then [Draw(r.m.fb)] else [])
  {
    var pc2 := m.pc + 2;
    if ins.Cls? then
      var blank := seq(FB_SIZE, _ => 0);
      Running(m.(fb := blank, pc := pc2), [Draw(blank)])
    else if ins.Ret? then ExecRet(m)
    else if ins.Sys? then Running(m.(pc := pc2), [])
    else if ins.Jp? then Running(m.(pc := ins.addr), [])
    else if ins.Call? then ExecCall(m, ins.addr)
    else if IsSkip(ins) then Running(m.(pc := SkipIf(m, SkipTaken(m.v, ins, inp.held))), [])
    else if ins.LdI? then Running(m.(i := ins.addr, pc := pc2), [])
    else Running(m.(pc := ins.addr + m.v[0]), [])
  }

  /** The Fx instructions that write a timer, I or memory. */
  predicate IsFxOp(ins: Instr)
  {
    ins.LdDtVx? || ins.LdStVx? || ins.AddI? || ins.LdF? || ins.LdB? || ins.StoreRegs? || ins.LoadRegs?
  }

  /** Fx15, Fx18, Fx1E, Fx29, Fx33, Fx55 and Fx65. Only Fx18 emits an event:
      the tone starts when the sound timer is loaded with a nonzero value. */
  function ExecFx(m: Machine, ins: Instr): (r: Outcome)
    requires Valid(m) && m.pc < RAM_SIZE - 1 && IsFxOp(ins)
    ensures r.Running? ==> Valid(r.m) && r.m.fb == m.fb
    ensures r.Faulted? ==> r == Faulted(MemOutOfBounds, [])
    ensures r.Faulted? ==> !r.fault.Thrown()
    ensures r.events == (if ins.LdStVx? && m.v[ins.x] != 0 then [ToneStart] else [])
  {
    var pc2 := m.pc + 2;
    if ins.LdDtVx? then Running(m.(delay := m.v[ins.x], pc := pc2), [])
    else if ins.LdStVx? then
      Running(m.(sound := m.v[ins.x], pc := pc2), if m.v[ins.x] != 0 then [ToneStart] else [])
    else if ins.AddI? then Running(m.(i := Wrap16(m.i + m.v[ins.x]), pc := pc2), [])
    else if ins.LdF? then Running(m.(i := m.v[ins.x] as int * 5, pc := pc2), [])
    else if ins.LdB? then ExecBcd(m, ins.x)
    else if ins.StoreRegs? then ExecStore(m, ins.x)
    else ExecLoad(m, ins.x)
  }

  /** Executes one decoded instruction on a machine whose PC passed the range
      check. */
  function Execute(m: Machine, ins: Instr, inp: Inputs): (r: Outcome)
    requires Valid(m) && m.pc < RAM_SIZE - 1
    ensures r.Running? ==> Valid(r.m)
    ensures r.Running? && FbBinary(m.fb) ==> FbBinary(r.m.fb)
    ensures r.Faulted? && r.fault.Thrown() <==> ins.Illegal?
    ensures ToneStop !in r.events
  {
    match ins
    case Cls | Ret | Sys(_) | Jp(_) | Call(_) | SeImm(_, _) | SneImm(_, _) | SeReg(_, _)
       | SneReg(_, _) | Skp(_) | Sknp(_) | LdI(_) | JpV0(_) =>
      ExecFlow(m, ins, inp)
    case LdImm(_, _) | AddImm(_, _) | LdReg(_, _) | Or(_, _) | And(_, _) | Xor(_, _)
       | AddReg(_, _) | Sub(_, _) | Shr(_, _) | Subn(_, _) | Shl(_, _) | Rnd(_, _)
       | LdVxDt(_) | LdVxKey(_) =>
      ExecRegister(m, ins, inp)
    case Drw(x, y, n) => ExecDraw(m, x, y, n)
    case LdDtVx(_) | LdStVx(_) | AddI(_) | LdF(_) | LdB(_) | StoreRegs(_) | LoadRegs(_) =>
      ExecFx(m, ins)
    case Illegal(op) => Faulted(IllegalInstruction(op), [])
  }

  /** One iteration of the main loop. */
  function Step(m: Machine, inp: Inputs): (r: Outcome)
    requires Valid(m)
    ensures r.Running? ==> Valid(r.m)
    ensures r.Running? && FbBinary(m.fb) ==> FbBinary(r.m.fb)
    ensures r.Faulted? && r.fault.PCOutOfRange? <==> m.pc >= RAM_SIZE - 1
    ensures r.Faulted? && r.fault.IllegalInstruction? <==>
              m.pc < RAM_SIZE - 1 && IllegalPattern(Fetch(m))
    ensures ToneStop in r.events <==> inp.timerTickDue && m.sound == 1
  {
    var (t, tickEvents) := TickTimers(m, inp.timerTickDue);
    if t.pc >= RAM_SIZE - 1 then Faulted(PCOutOfRange(t.pc), tickEvents)
    else After(tickEvents, Execute(t, Decode(Fetch(t)), inp))
  }

  /** The main loop over a finite prefix of its inputs: one step per input
      until a fault, with all events in order. */
  function Steps(m: Machine, inputs: seq<Inputs>): (r: Outcome)
    requires Valid(m)
    ensures r.Running? ==> Valid(r.m)
    ensures r.Running? && FbBinary(m.fb) ==> FbBinary(r.m.fb)
    decreases |inputs|
  {
    if |inputs| == 0 then Running(m, [])
    else
      match Step(m, inputs[0])
      case Faulted(f, ev) => Faulted(f, ev)
      case Running(m', ev) => After(ev, Steps(m', inputs[1..]))
  }

  /** `run`: reject a start address outside RAM, otherwise set PC and run the
      loop. */
  function Run(m: Machine, startAddr: Word, inputs: seq<Inputs>): (r: Result<Outcome, StartError>)
    requires Valid(m)
    ensures r.Err? <==> startAddr >= RAM_SIZE
    ensures r.Ok? ==> r.value == Steps(m.(pc := startAddr), inputs)
  {
    match Start(m, startAddr)
    case Err(e) => Err(e)
    case Ok(m0) => Ok(Steps(m0, inputs))
  }
}
