# CHIP-8 interpreter core in Dafny

A model of the CHIP-8 virtual machine in `src/VM.cpp`: the machine state of
class `VM`, its constructor, `loadProgram`, the start-address check of `run`,
and one iteration of the main loop. An iteration is the 60 Hz timer tick, the
program-counter range check, the 16-bit fetch, the decode chain and the
execution of one instruction. The model is functional. `Machine` is an
immutable datatype with registers, stack, RAM and framebuffer held as
sequences. `Step(m, inp)` returns an `Outcome`: either the next machine with
the events it emitted, or the fault that ends the run.

Modules:

- `Bytes`: `uint8_t`/`uint16_t` as subset types of `int`, with explicit
  truncation (`Wrap8`, `Wrap16`) and bitwise operations on `bv8`.
- `State`: the constants (`RAM_SIZE` 4096, `STACK_LEVELS` 16, the 80-byte
  font), `Machine`, the constructor `PowerOn`, `Load` and `Start`.
- `Decoder`: the `Instr` datatype, the decode chain `Decode`, an assembler
  `Encode`, and the reference list of illegal opcodes `IllegalPattern`.
- `Sprite`: the DRW blit loop pixel by pixel (`DrawPixels`), plus a
  footprint description (`RefFrame`, `RefCollision`) proved equal to it for
  coordinates outside VF.
- `Memory`: the Fx55/Fx65 copy loops and their splice descriptions.
- `Interp`: the step inputs and events, `TickTimers`, `Fetch`, `Execute`,
  `Step`, `Steps` and `Run`.
- `AluFacts`, `FlowFacts`, `MemoryFacts`, `DrawFacts`, `TimerFacts`,
  `StepFacts`: the properties of instructions and steps.

Inputs of a step replace everything external:

- `timerTickDue` says whether the 60 Hz interval has elapsed.
- `rnd` is the random byte that RND uses.
- `held` is the set of held keys. A key code `k` counts as pressed only when
  `k <= 15 && k in held`.
- `pressed` (0..15) is the key that the blocking Fx0A wait returns.

Outputs are the events `Draw(frame)`, `ToneStart` and `ToneStop`.

Faults: `PCOutOfRange` and `IllegalInstruction` are the two errors the
interpreter throws (`Fault.Thrown()`). `StackOverflow`, `StackUnderflow` and
`MemOutOfBounds` stand for C++ undefined behaviour:

- a CALL with 16 return addresses already on the stack;
- a RET with an empty stack, where the 8-bit stack pointer would wrap to 255;
- an I-relative access at or beyond address 4096.

Behaviour kept exactly as the code has it:

- VF is written before Vx in 8xy4/5/6/7/E, so when x = F the result overwrites
  the flag. The shifts read Vx after the flag is written. For x = F, SHR
  therefore leaves VF = 0 and SHL leaves VF = 2·flag.
- SHL takes its flag from bit 3 (mask `0x8`), not from the bit shifted out.
- Fx55 and Fx65 leave I unchanged.
- DRW clears VF first and re-reads Vx and Vy for every pixel. A coordinate
  held in VF therefore follows the running collision flag (`Sprite.Coord`).
- The constructor copies only the font into RAM. The rest of RAM and the
  call stack are never initialised, so `PowerOn` takes their prior contents
  as parameters.

Fx18 starts the tone for a nonzero value, but loading 0 does not stop it.
Only the tick's 1 → 0 transition stops the tone, so after Fx18 loads 0 no
tick emits ToneStop while the sound timer stays 0, that is, until a later
Fx18 loads a nonzero value (`TimerFacts.SilencingKeepsTone`). The model
keeps this behaviour.

Opcode masks are written as field comparisons. `(instr & 0xF000) == 0xH000`
becomes `Hi(op) == H`. `(instr & 0xF00F) == 0xH00N` becomes
`Hi(op) == H && N(op) == N`. `(instr & 0xF0FF) == 0xH0KK` becomes
`Hi(op) == H && KK(op) == KK`.

## Model

| member | source | states |
|---|---|---|
| State.PowerOn | src/VM.cpp:34-66 | The constructor zeroes registers, I, timers, PC, SP and the framebuffer, and puts the font in RAM[0..80). RAM above the font keeps whatever it held. |
| State.PowerOnStates | src/VM.cpp:34-66 | A machine is a power-on state (font at 0..79, everything else zeroed except RAM and stack) exactly when the constructor can produce it from some prior RAM and stack contents. |
| State.Load | src/VM.cpp:74-82 | `loadProgram` fails with LoadOverflow exactly when dest + size > 4096. Otherwise RAM[dest..dest+size) equals the image, and every other byte and every other field is unchanged. |
| State.LoadKeepsFont | src/VM.cpp:74-82 | A load at or above offset 80 that fits leaves the font bytes 0..79 intact. |
| State.Start | src/VM.cpp:84-91 | `run` rejects a start address of 4096 or more. Otherwise it sets PC to that address and changes nothing else. |
| Decoder.Decode | src/VM.cpp:151-445 | 00E0 decodes to CLS and 00EE to RET. Every other 0nnn is SYS. An opcode is Illegal exactly when it matches the independently listed illegal patterns: 5xyN/9xyN with N ≠ 0, 8xyN with N outside 0..7 and E, and unlisted Ex/Fx low bytes. |
| Decoder.DecodeEncode | src/VM.cpp:151-445 | Decoding the canonical opcode of any well-formed instruction gives that instruction back. Well-formed means a Sys address other than 0E0 and 0EE, and an Illegal opcode that no rule accepts. |
| Decoder.EncodeDecode | src/VM.cpp:151-445 | Re-encoding a decoded opcode gives the opcode back, so decoding is injective and loses no operand bits. |
| Decoder.DecodeSamples | src/VM.cpp:151-166 | Examples: 0xFFFF is illegal, 0x00E0 is CLS, 0x00EE is RET and 0x0123 is SYS. |
| Decoder.DecodeAluSamples | src/VM.cpp:276-284 | Examples: 0x8127 is SUBN V1, V2, and 0x812F, whose low nibble names no operation, is illegal. |
| Sprite.DrawPixel | src/VM.cpp:328-348 | One loop iteration. A clear sprite bit changes nothing. A set bit toggles the one pixel at ((Vx + c) mod 64, (Vy + r) mod 32), where Vx and Vy are read at that moment, so a coordinate in VF sees the running flag. It sets the flag to 1 when that pixel was lit and otherwise keeps the flag. |
| Sprite.DrawPixels | src/VM.cpp:326-349 | The blit loop keeps the framebuffer size. It only moves the flag to 1, and it keeps a framebuffer whose pixels are all 0 or 0xFF in that form. |
| Sprite.DrawPixelsInvariant | src/VM.cpp:326-349 | After k loop iterations (coordinates not in VF), exactly the pixels covered by the first k sprite pixels are toggled. The flag is 1 exactly when one of those pixels was set. |
| Sprite.Blit | src/VM.cpp:319-352 | DRW first clears VF, then runs the pixel loop over 8 pixels per row. The flag ends as 0 or 1, the 0/0xFF form of the framebuffer is kept, and an empty sprite leaves the framebuffer unchanged with VF = 0. |
| Sprite.DrawMatchesReference | src/VM.cpp:319-352 | The whole blit equals the footprint description. Every pixel under a set sprite bit at ((Vx+c) mod 64, (Vy+r) mod 32) is toggled, all others are unchanged, and VF = 1 exactly when a covered pixel was set. |
| Sprite.RefFrameToggles | src/VM.cpp:337-348 | In the footprint description, the pixel under a set sprite bit (r, c) is the toggled original pixel. |
| Sprite.RefFrameOnBlank | src/VM.cpp:319-352 | On a blank framebuffer the footprint reports no collision and lights exactly the covered pixels with 0xFF. |
| Sprite.RefFrameTwice | src/VM.cpp:319-352 | Applying the same sprite footprint twice restores a framebuffer whose pixels are all 0 or 0xFF. |
| Memory.StoreUpTo | src/VM.cpp:426-429 | After k iterations of the Fx55 loop, RAM[base + j] = V[j] for every j < k, and every byte outside [base, base + k) is unchanged. |
| Memory.LoadUpTo | src/VM.cpp:436-439 | After k iterations of the Fx65 loop, V[j] = RAM[base + j] for every j < k, and the registers from k up are unchanged. |
| Memory.StoreUpToSplice | src/VM.cpp:422-431 | The Fx55 loop's first k iterations replace exactly RAM[I..I+k) with V0..V(k-1). |
| Memory.LoadUpToSplice | src/VM.cpp:432-441 | The Fx65 loop's first k iterations replace exactly V0..V(k-1) with RAM[I..I+k). |
| Memory.StoreThenLoad | src/VM.cpp:422-441 | Loading back a block just stored from the same registers restores the registers. |
| Interp.KeyPressed | src/Keyboard.cpp:5-47 | A key code 0..15 is pressed exactly when that key is held. A code above 15 is never pressed. |
| Interp.AddWithCarry | src/VM.cpp:255-257 | Vx = (Vx + Vy) mod 256. When x ≠ F, VF = 1 exactly when the sum exceeds 255. Every other register is unchanged. |
| Interp.SubWithBorrow | src/VM.cpp:264-266 | Vx = (Vx − Vy) mod 256. When x ≠ F, VF = 1 exactly when Vx ≥ Vy, which is the meaning of the body's "16-bit result ≤ 255" test. Every other register is unchanged. |
| Interp.SubReversed | src/VM.cpp:280-282 | Vx = (Vy − Vx) mod 256. When x ≠ F, VF = 1 exactly when Vy ≥ Vx. Every other register is unchanged. |
| Interp.ShiftRight | src/VM.cpp:272-273 | When x ≠ F, VF = old bit 0 and Vx = old / 2. When x = F, VF ends as 0, because the shift reads the flag just written. Every other register is unchanged. |
| Interp.ShiftLeft | src/VM.cpp:288-289 | When x ≠ F, VF = bit 3 of the old value (mask 0x8) and Vx = 2·old mod 256. When x = F, VF ends as 2·flag. Every other register is unchanged. |
| Interp.RegisterOp | src/VM.cpp:209-384 | The register-only instructions (LD, ADD, OR, AND, XOR, SUB, SUBN, SHR, SHL, RND, Fx07 and Fx0A) change no register other than Vx and VF. The flagless ones leave VF alone unless x = F. Fx0A stores a key code ≤ 15. Any other instruction leaves the registers unchanged. |
| Interp.TickTimers | src/VM.cpp:120-138 | On a due tick, each nonzero timer drops by one and a zero timer stays 0. ToneStop is emitted exactly when the sound timer goes from 1 to 0. Nothing else changes. |
| Interp.Fetch | src/VM.cpp:146-148 | The opcode's high byte is RAM[PC] and its low byte is RAM[PC+1]. |
| Interp.ExecRet | src/VM.cpp:157-161 | RET faults with StackUnderflow exactly when SP = 0. It never touches the framebuffer. |
| Interp.ExecCall | src/VM.cpp:171-175 | CALL faults with StackOverflow exactly when the stack is full (SP = 16). |
| Interp.ExecDraw | src/VM.cpp:319-352 | DRW faults exactly when it would read a sprite row at or beyond 4096. Otherwise it keeps a framebuffer of 0/0xFF pixels in that form. |
| Interp.ExecBcd | src/VM.cpp:414-421 | Fx33 faults exactly when I+2 ≥ 4096. |
| Interp.ExecStore | src/VM.cpp:422-431 | Fx55 faults exactly when I+x ≥ 4096. |
| Interp.ExecLoad | src/VM.cpp:432-441 | Fx65 faults exactly when I+x ≥ 4096. |
| Interp.ExecFlow | src/VM.cpp:151-372 | CLS, RET, SYS, JP, CALL, the six skips, LD I and JP V0 keep the machine well-formed. Only CLS touches the framebuffer: it leaves 0/0xFF pixels and emits the cleared frame as its one event. The only faults are the stack under- and overflow, neither of which is a thrown error. |
| Interp.ExecRegister | src/VM.cpp:209-318 | A register instruction (6xkk, 7xkk, the 8xy_ family, Cxkk, and also Fx07 and Fx0A from lines 373-384) always runs, emits no event, keeps the machine well-formed, and changes only the registers and PC, which advances by 2. |
| Interp.ExecFx | src/VM.cpp:385-441 | Fx15, Fx18, Fx1E, Fx29, Fx33, Fx55 and Fx65 keep the machine well-formed and never touch the framebuffer. Their only fault is an out-of-bounds memory access. The only event is ToneStart, from Fx18 with Vx ≠ 0. |
| Interp.Execute | src/VM.cpp:151-445 | Execution keeps the machine well-formed and keeps a framebuffer of 0/0xFF pixels in that form. It throws exactly on Illegal instructions. |
| Interp.Step | src/VM.cpp:120-445 | A step faults with PCOutOfRange exactly when PC ≥ 4095. It throws IllegalInstruction exactly when the fetched opcode matches an illegal pattern. It emits ToneStop exactly when a tick is due and the sound timer is 1. |
| Interp.Steps | src/VM.cpp:99-446 | The main loop over finitely many inputs keeps the machine well-formed and keeps the framebuffer's 0/0xFF form. |
| Interp.Run | src/VM.cpp:84-99 | `run` fails exactly on a start address ≥ 4096. Otherwise it is the main loop started at that address. |
| AluFacts.AddImmWraps | src/VM.cpp:216-222 | 7xkk sets Vx = (Vx + kk) mod 256 and changes nothing else, VF included. |
| AluFacts.AddRegCarry | src/VM.cpp:251-259 | 8xy4 sets Vx = (a+b) mod 256 and VF = 1 exactly when a+b > 255. For x = F the sum overwrites the flag. Other registers are unchanged. |
| AluFacts.SubBorrow | src/VM.cpp:260-268 | 8xy5 sets Vx = (a−b) mod 256 and VF = 1 exactly when a ≥ b. For x = F the difference overwrites the flag. |
| AluFacts.SubnBorrow | src/VM.cpp:276-284 | 8xy7 sets Vx = (b−a) mod 256 and VF = 1 exactly when b ≥ a, for x ≠ F. For x = F the difference overwrites the flag. |
| AluFacts.ShrFlag | src/VM.cpp:269-275 | 8xy6 sets VF = old bit 0 and Vx = old / 2. For x = F the result is VF = 0. |
| AluFacts.ShlFlagBit3 | src/VM.cpp:285-291 | 8xyE sets VF = bit 3 of the old value and Vx = 2·old mod 256. For x = F the result is VF = 2·flag. |
| AluFacts.ShlFlagSamples | src/VM.cpp:285-291 | Example: shifting 0x80 left sets no flag, while shifting 0x08 sets it. |
| AluFacts.RegisterOpFrame | src/VM.cpp:209-250 | 6xkk sets Vx = kk, 7xkk sets Vx = (Vx + kk) mod 256, 8xy0 sets Vx = Vy, and 8xy1/2/3 set Vx to Vx OR, AND or XOR Vy. RND sets Vx to the random byte AND kk. Each changes no other register, emits nothing and advances PC by 2. |
| AluFacts.RndMasks | src/VM.cpp:312-318 | RND stores the random byte AND kk. A zero mask gives 0 and the mask 1 gives the random byte's low bit. |
| FlowFacts.ClsClears | src/VM.cpp:151-156 | 00E0 sets every pixel to 0, sends the blank frame to the display, and changes only the framebuffer and PC. |
| FlowFacts.LdITarget | src/VM.cpp:303-307 | Annn sets I = nnn and changes nothing else. |
| FlowFacts.JumpTarget | src/VM.cpp:167-170 | 1nnn sets PC = nnn and changes nothing else. |
| FlowFacts.JumpOffsetTarget | src/VM.cpp:308-311 | Bnnn sets PC = nnn + V0 and changes nothing else. |
| FlowFacts.SysIsNoOp | src/VM.cpp:162-166 | Every 0nnn other than 00E0 and 00EE only advances PC by 2. |
| FlowFacts.CallThenRet | src/VM.cpp:157-175 | CALL then RET returns to the call site + 2 with SP restored. Only the used stack slot differs. |
| FlowFacts.StackFaults | src/VM.cpp:157-175 | CALL faults exactly on a full stack and RET exactly on an empty one. Neither fault is a thrown error. |
| FlowFacts.SkipOnImmediate | src/VM.cpp:176-197 | 3xkk advances PC by 4 when Vx = kk and by 2 otherwise. 4xkk does the opposite. Nothing else changes. |
| FlowFacts.SkipOnEqualRegs | src/VM.cpp:198-208 | 5xy0 advances PC by 4 exactly when Vx = Vy, else by 2. |
| FlowFacts.SkipOnUnequalRegs | src/VM.cpp:292-302 | 9xy0 advances PC by 4 exactly when Vx ≠ Vy, else by 2. |
| FlowFacts.SkipOnKey | src/VM.cpp:353-372 | Ex9E skips exactly when key Vx (≤ 15) is held. ExA1 skips exactly when it is not. |
| FlowFacts.NoKeyAbove15 | src/Keyboard.cpp:5-47 | A key code above 15 is never pressed, so SKP never skips on it and SKNP always does. |
| FlowFacts.KeyWait | src/VM.cpp:379-384 | Fx0A stores the returned key code (0..15) in Vx and changes nothing else. |
| MemoryFacts.BcdDigits | src/VM.cpp:414-421 | Fx33 writes three digits, each ≤ 9, with 100·d0 + 10·d1 + d2 = Vx, to RAM[I..I+2]. The rest of RAM and the registers are unchanged. |
| MemoryFacts.DecimalDigits | src/VM.cpp:417-419 | The three values Fx33 computes from a byte b (b/100, (b/10) mod 10, b mod 100 mod 10) are each ≤ 9 and spell b: 100·h + 10·t + u = b. |
| MemoryFacts.BcdOutOfRange | src/VM.cpp:414-421 | Fx33 with I+2 ≥ 4096 is an out-of-bounds fault. |
| MemoryFacts.BcdSamples | src/VM.cpp:414-421 | Examples: 234 is stored as 2,3,4 and 7 as 0,0,7. |
| MemoryFacts.FontGlyph | src/VM.cpp:408-413 | Fx29 sets I = 5·Vx. With the font in place and Vx ≤ 15, RAM[I..I+5) is that glyph. |
| MemoryFacts.StoreRegsEffect | src/VM.cpp:422-431 | Fx55 writes V0..Vx to RAM[I..I+x]. I, the registers and the rest of RAM are unchanged. |
| MemoryFacts.LoadRegsEffect | src/VM.cpp:432-441 | Fx65 loads V0..Vx from RAM[I..I+x]. I, RAM and the other registers are unchanged. |
| MemoryFacts.StoreThenLoadRegs | src/VM.cpp:422-441 | Fx55 followed by Fx65 with the same x and I restores the registers and leaves I unchanged. |
| MemoryFacts.BlockOutOfRange | src/VM.cpp:422-441 | Fx55 and Fx65 with I+x ≥ 4096 are out-of-bounds faults. |
| MemoryFacts.AddIWraps | src/VM.cpp:402-407 | Fx1E sets I = (I + Vx) mod 65536 and sets no flag. |
| DrawFacts.DrawExecute | src/VM.cpp:319-352 | DRW (coordinates not in VF) leaves the footprint frame. VF is the collision bit, nothing else changes, and the new frame is sent to the display. |
| DrawFacts.DrawTogglesTarget | src/VM.cpp:337-348 | For x, y ≠ F, each set sprite bit (r, c) toggles the pixel ((Vx+c) mod 64, (Vy+r) mod 32). |
| DrawFacts.DrawNoRows | src/VM.cpp:319-352 | DRW with n = 0 leaves the framebuffer unchanged and sets VF = 0, for any registers. |
| DrawFacts.DrawLiveFlagSample | src/VM.cpp:326-349 | Example of DRW with x = F. A row 0xC0 at (0, 0) over pixels 0xFF, 0, 0 first collides at column 0, which raises VF to 1. The second pixel is then drawn at column 1 + 1 = 2, so the result is pixels 0, 0, 0xFF with VF = 1. |
| DrawFacts.DrawTwiceRestores | src/VM.cpp:319-352 | From a framebuffer of 0/0xFF pixels, drawing the same sprite twice (x, y ≠ F) restores the framebuffer. |
| DrawFacts.ClsThenDraw | src/VM.cpp:319-352 | After CLS, DRW with x, y ≠ F lights exactly the sprite's set bits at the drawn position, with VF = 0. |
| TimerFacts.TimersCountDown | src/VM.cpp:120-138 | After k due ticks each timer equals max(t − k, 0), and nothing else has changed. |
| TimerFacts.DelayFromFive | src/VM.cpp:120-138 | Example: a delay timer of 5 reads 4 after one tick, 1 after four, and 0 after five and after six. |
| TimerFacts.NoTickNoChange | src/VM.cpp:120-138 | Without a due tick the timers are unchanged and no event is emitted. |
| TimerFacts.DelayTimerRead | src/VM.cpp:373-378 | Fx07 copies the delay timer into Vx. |
| TimerFacts.DelayTimerWrite | src/VM.cpp:385-390 | Fx15 sets the delay timer to Vx, so a following Fx07 reads the same value back. |
| TimerFacts.SoundTimerWrite | src/VM.cpp:391-401 | Fx18 sets the sound timer to Vx and emits ToneStart exactly when the value is nonzero. |
| TimerFacts.SilencingKeepsTone | src/VM.cpp:391-401 | Fx18 with Vx = 0 clears the sound timer and emits no event. Afterwards, any number of ticks with no instruction in between emits no ToneStop. So while the sound timer stays 0, that is, until a later Fx18 loads a nonzero value, nothing stops a tone that was playing. |
| TimerFacts.StepTicksFirst | src/VM.cpp:120-148 | A step ticks the timers before it executes, so Fx07 reads the already decremented delay timer. |
| StepFacts.StepExecutesFetched | src/VM.cpp:141-148 | With PC < 4095, a step executes the decoded opcode RAM[PC]·256 + RAM[PC+1] after the tick. |
| StepFacts.StepIllegalFFFF | src/VM.cpp:442-445 | Fetching 0xFFFF throws IllegalInstruction(0xFFFF). |
| StepFacts.LegalStepDoesNotThrow | src/VM.cpp:141-445 | A step with PC in range and a legal opcode can fault only with one of the undefined-behaviour faults. |
| StepFacts.LoadSamples | src/VM.cpp:74-82 | Example: a 4-byte load at 4094 fails with LoadOverflow, while the same load at 0x200 succeeds and keeps the font. |
| StepFacts.BootSequence | src/main.cpp:24-26 | Constructing, loading an image that fits at 0x200 and running from 0x200 succeeds. The font and image are in place and the framebuffer is in 0/0xFF form. |

## Left out

- Pacing to 500 instructions per second, the chrono timestamps and `sleep_for` (src/VM.cpp:93-117): these are real time. Whether the 60 Hz interval has elapsed is the step input `timerTickDue`.
- `srand`/`rand` (src/VM.cpp:96, 316): this is randomness. The random byte is the step input `rnd`.
- SDL display, audio object, key polling and I/O bring-up (Display, InitIO, Keyboard, the sound class): these are foreign library calls. They appear only as the events `Draw`, `ToneStart` and `ToneStop`, and as the key inputs `held` and `pressed`.
- The real-time length of the Fx0A wait: one step takes the key as an input. The timer freeze is still covered, because the source ticks nothing during the wait and at most once on the next loop pass, and a step of the model ticks each timer at most once.
- File reading and argument handling in src/main.cpp: this is I/O. Only the load and start at 0x200 are modelled (`StepFacts.BootSequence`).
- State.Load: does not model the 32-bit wrap-around of `dest + size`. A `requires` bounds dest + size below 2^32.
- The destructor: memory release has no modelled effect.
- Interp.Steps: models the endless main loop only over a finite sequence of inputs. The loop has no normal exit, so every prefix is covered.
- Sprite.DrawMatchesReference: the footprint description covers coordinates held in registers other than VF. With x or y = F the coordinate follows the running flag. That case is modelled by `Sprite.DrawPixels` alone, with only the size, flag and 0/0xFF-form guarantees.
- C++ undefined behaviour (stack overflow and underflow, RAM access at or beyond 4096) is modelled as a fault that ends the run. What the real program would do after such an access is unspecified.
