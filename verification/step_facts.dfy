/** Whole steps and runs: the fetch range check, the illegal opcode, and the
    construct-load-run sequence of the program's entry point. */
module StepFacts {
  import opened Bytes
  import opened Results
  import opened State
  import opened Decoder
  import opened Interp

  /** The step executes the instruction the two bytes at PC spell, high byte
      first, after the timer tick. */
  lemma StepExecutesFetched(m: Machine, inp: Inputs)
    requires Valid(m) && m.pc < RAM_SIZE - 1
    ensures var t := TickTimers(m, inp.timerTickDue);
      Step(m, inp) == After(t.1, Execute(t.0, Decode(m.ram[m.pc] as int * 0x100 + m.ram[m.pc + 1]), inp))
  {
    var (t, ev) := TickTimers(m, inp.timerTickDue);
    assert Valid(t) && t.pc == m.pc && t.ram == m.ram;
    var op := m.ram[m.pc] as int * 0x100 + m.ram[m.pc + 1];
    assert Fetch(t) == op;
    assert Step(m, inp) == After(ev, Execute(t, Decode(op), inp));
  }

  /** The all-ones opcode is an illegal instruction. */
  lemma StepIllegalFFFF(m: Machine, inp: Inputs)
    requires Valid(m) && m.pc < RAM_SIZE - 1
    requires m.ram[m.pc] == 0xFF && m.ram[m.pc + 1] == 0xFF
    ensures Step(m, inp).Faulted? && Step(m, inp).fault == IllegalInstruction(0xFFFF)
  {
    DecodeSamples();
  }

  /** A step that does not fault on the PC range check and decodes a legal
      opcode never throws: any other fault is one of the undefined
      accesses. */
  lemma LegalStepDoesNotThrow(m: Machine, inp: Inputs)
    requires Valid(m) && m.pc < RAM_SIZE - 1 && !IllegalPattern(Fetch(m))
    ensures Step(m, inp).Faulted? ==> !Step(m, inp).fault.Thrown()
  {
  }

  /** Loading at offset 4094 a program of 4 bytes fails; loading it at 0x200
      succeeds and keeps the font. */
  lemma LoadSamples(m: Machine, image: seq<Byte>)
    requires Valid(m) && m.ram[..|FONT|] == FONT && |image| == 4
    ensures Load(m, image, 4094) == Err(LoadOverflow(4094, 4))
    ensures Load(m, image, PROGRAM_START).Ok?
    ensures Load(m, image, PROGRAM_START).value.ram[..|FONT|] == FONT
  {
    LoadKeepsFont(m, image, PROGRAM_START);
  }

  /** The program's entry point: construct, load the image at 0x200 and run
      from 0x200. Any image that fits above 0x200 loads with the font intact
      and starts at 0x200 with a framebuffer of cleared pixels. */
  lemma BootSequence(junkRam: seq<Byte>, junkStack: seq<Word>, image: seq<Byte>, inputs: seq<Inputs>)
    requires |junkRam| == RAM_SIZE && |junkStack| == STACK_LEVELS
    requires PROGRAM_START + |image| <= RAM_SIZE
    ensures var loaded := Load(PowerOn(junkRam, junkStack), image, PROGRAM_START);
      && loaded.Ok?
      && loaded.value.ram[..|FONT|] == FONT
      && loaded.value.ram[PROGRAM_START..PROGRAM_START + |image|] == image
      && Run(loaded.value, PROGRAM_START, inputs).Ok?
      && Run(loaded.value, PROGRAM_START, inputs).value
         == Steps(loaded.value.(pc := PROGRAM_START), inputs)
      && FbBinary(loaded.value.fb)
  {
    LoadKeepsFont(PowerOn(junkRam, junkStack), image, PROGRAM_START);
  }
}
