/** The compiler, the assembler's loop and the machine, one after the other. */
module Compiler {
  import opened Common
  import opened Nyva
  import opened CodeGen
  import opened StmtProof
  import opened ProgramProof
  import Machine
  import Generator
  import Vm

  /** The machine as ortavm_create leaves it. */
  function Created(capacity: nat): Machine.State {
    Machine.State(capacity, 0, [], [], [map[]], [], 0, Machine.Running)
  }

  /** Generating the code of a body, assembling it and running it to its end leaves the machine with the variables and
      the output that the body, without its dropped breaks, means. */
  method CompileAndRun(body: seq<Stmt>, capacity: nat, ghost fuel: nat) returns (vm: Vm.OrtaVM)
    requires AllCallFree(body) && AllPlaced(body, false, false) && NeedAll(body) <= capacity
    requires |GenProgram(body).0| < WORD64
    requires ExecAll(AllStripped(body, false), map[], fuel).Normal?
    ensures vm.Valid() && var e := ExecAll(AllStripped(body, false), map[], fuel);
            vm.View() == Finished(Created(capacity), body, e.vars, e.out)
  {
    assert |Assemble(GenProgram(body).0).instrs| == |GenProgram(body).0|;
    hide AllCallFree, AllPlaced, NeedAll, GenProgram, GenAll, AllStripped, ExecAll, Assemble, Machine.Run, Machine.Lookup;
    var generator := new Generator.CodeGenerator();
    generator.GenerateEntryProgram(body);
    var program := Generator.AssembleAll(generator.out);
    ghost var n := CompilerCorrect(body, Created(capacity), fuel);
    EntryFound(body);
    vm := new Vm.OrtaVM(program, capacity);
    vm.RunProgram(n);
  }

  /** The entry label is the program's first item. */
  lemma EntryFound(body: seq<Stmt>)
    requires AllCallFree(body)
    ensures Machine.Lookup(Assemble(GenProgram(body).0).labels, "__entry") == 0
  {
    var items := GenProgram(body).0;
    ProgramLabels(body);
    assert items[0] == Lbl(ENTRY);
    hide AllCallFree, GenProgram, Machine.Lookup, Distinct;
    LookupFinds(items, 0, 0);
  }
}
