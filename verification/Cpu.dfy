/** run() of src/cpu.c, as far as the program counter goes: what an instruction
    does to the rest of the machine is a parameter. */
module Cpu {
  datatype Opcode = CALC | ALLOC | FREE | READ | WRITE | SYSCALL

  datatype Inst = Inst(opcode: Opcode, arg0: nat, arg1: nat, arg2: nat, arg3: nat)

  class Process {
    const text: seq<Inst>
    var pc: nat

    constructor (text: seq<Inst>)
      ensures this.text == text && pc == 0
    {
      this.text := text;
      pc := 0;
    }

    // execute: the status that the operation of an instruction returns.
    method Run(execute: Inst -> int) returns (stat: int)
      modifies this`pc
      ensures old(pc) >= |text| ==> stat == 1 && pc == old(pc)
      ensures old(pc) < |text| ==> stat == execute(text[old(pc)]) && pc == old(pc) + 1
    {
      if pc >= |text| { return 1; }
      var ins := text[pc];
      pc := pc + 1;
      stat := execute(ins);
    }
  }
}
