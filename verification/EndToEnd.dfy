/** From a TensorC program to the words of DRAM: the analysis, the generator, the C, the driver and the device together. */
module EndToEnd {
  import opened TensorAst
  import opened Sema
  import opened Codegen
  import opened Evaluation
  import opened TensorCSemantics
  import opened CTarget
  import opened Portable
  import opened Programs
  import opened TensorLayout
  import opened DramRuns

  /** A tensor stands in DRAM, row by row. */
  ghost predicate InDram(v: Value, slot: Slot, dram: seq<int>)
  {
    v.Matrix? && slot.Array? && SameTensor(v.grid, WordsAt(dram, slot.base, slot.length))
  }

  /** Main result: the machine runs the emitted C, with DRAM for its arrays and the device for its products, to the output and
      the code of the TensorC program, and leaves every tensor that was declared at its place in DRAM.  Only a full stack ends
      it early, and a program that declares tensors at top level only never fills it. */
  lemma TensorsEndInDram(decls: seq<Decl>, m: Machine, order: Order, b: Board, fuel: nat)
    requires Analyze(decls).Some? && PlainProgram(decls, order) && PortableProgram(decls)
    requires Booted(Generated(Analyze(decls).value.0), m, b)
    ensures var p := Generated(Analyze(decls).value.0);
            var r, f := Run(decls, fuel), MRun(p, m, order, b, fuel);
            r.Ok? ==>
              || (f.NoRoom? && !LeanProgram(p))
              || (f.Done? && f.value.0 == r.value.0 && f.value.1.names.out == r.value.1.out && Frame(b, m, f.value.1)
                  && forall n :: n in r.value.1.globals ==>
                       n in m.names.globals && InDram(r.value.1.globals[n], m.names.globals[n], f.value.1.dram))
  {
    hide Analyze;
    hide PlainProgram;
    hide PortableProgram;
    hide Generated;
    hide Run;
    hide CRun;
    hide MRun;
    hide Booted;
    hide Frame;
    hide WellLaid;
    hide SameTensor;
    hide LeanProgram;
    var p := Generated(Analyze(decls).value.0);
    CompiledProgramAgrees(decls, order, fuel);
    ProgramRuns(p, m, order, b, fuel);
    var f := MRun(p, m, order, b, fuel);
    if f.Done? && Run(decls, fuel).Ok? { SameStatics(b, m, f.value.1); }
  }

  lemma SameStatics(b: Board, m: Machine, m': Machine)
    requires Frame(b, m, m')
    ensures m'.names.globals == m.names.globals
  {
  }
}
