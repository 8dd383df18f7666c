/** One processing element (src/maps-sim/src/npu/pe.cpp). */
module ProcessingElement {
  import opened Systolic

  class PE {
    var input0: int
    var input1: int
    var output0: int
    var output1: int
    var weightReg: int
    var inputReg: int
    var psumReg: int
    var currentMode: Dataflow
    ghost const row: nat
    ghost const col: nat

    function View(): Cell
      reads this
    {
      Cell(currentMode, input0, input1, output0, output1, weightReg, inputReg, psumReg)
    }

    constructor (ghost row: nat, ghost col: nat)
      ensures View() == BlankCell && this.row == row && this.col == col
    {
      input0, input1, output0, output1 := 0, 0, 0, 0;
      weightReg, inputReg, psumReg := 0, 0, 0;
      currentMode := OS;
      this.row, this.col := row, col;
    }

    method Reset()
      modifies this
      ensures View() == BlankCell.(mode := old(View().mode))
    {
      input0, input1, output0, output1 := 0, 0, 0, 0;
      weightReg, inputReg, psumReg := 0, 0, 0;
    }

    method SetMode(mode: Dataflow)
      modifies this
      ensures View() == old(View()).(mode := mode)
    {
      currentMode := mode;
    }

    method LoadWeight(weight: int)
      modifies this
      ensures View() == old(View()).(weight := weight)
    {
      weightReg := weight;
    }

    method LoadInput(input: int)
      modifies this
      ensures View() == old(View()).(input := input)
    {
      inputReg := input;
    }

    method LoadPsum(psum: int)
      modifies this
      ensures View() == old(View()).(psum := psum)
    {
      psumReg := psum;
    }

    method SetInputs(lhs: int, rhs: int)
      modifies this
      ensures View() == old(View()).(input0 := lhs, input1 := rhs)
    {
      input0, input1 := lhs, rhs;
    }

    /** One clock on the inputs set before: the pure step of the grid, on this cell. */
    method Tick()
      modifies this
      ensures View() == Stepped(old(View()))
    {
      match currentMode {
        case OS =>
          psumReg := psumReg + input0 * input1;
          output0 := input0;
          output1 := input1;
        case WS =>
          psumReg := input0 * weightReg + input1;
          output0 := input0;
          output1 := psumReg;
        case IS =>
          psumReg := input0 + inputReg * input1;
          output0 := psumReg;
          output1 := input1;
        case Invalid(_) =>
      }
    }
  }
}
