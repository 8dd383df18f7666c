/** The bare-metal driver of the device (src/maps-sim/src/runtime/npu_driver.c). */
module Driver {
  import opened Words
  import opened Storage
  import opened Systolic
  import opened Descriptors
  import opened TiledGemm
  import opened Control
  import opened Device

  /** `maps_npu_desc_valid`: the fields the driver itself looks at. */
  predicate DescValid(d: Descriptor)
  {
    && d.m != 0 && d.n != 0 && d.k != 0
    && d.aBase != 0 && d.bBase != 0 && d.cBase != 0
    && d.aBase % 4 == 0 && d.bBase % 4 == 0 && d.cBase % 4 == 0
    && d.tileM != 0 && d.tileN != 0 && d.tileK != 0
    && ModeCode(d.mode) <= 2
  }

  /** The driver's test is necessary for the device's, and differs from it exactly in the array limits. */
  lemma DriverTestIsNecessary(d: Descriptor)
    requires d.Words()
    ensures d.Validate() <==> DescValid(d) && (d.mode.WS? || d.mode.IS? ==> d.tileK <= 16)
                              && (d.mode.OS? || d.mode.IS? ==> d.tileM <= 16) && (d.mode.OS? || d.mode.WS? ==> d.tileN <= 16)
  {
  }

  /** The driver accepts descriptors the device refuses. */
  lemma DriverTestIsNotSufficient()
    ensures var d := Descriptor(1, 1, 1, 4, 4, 4, OS, 17, 1, 1); d.Words() && DescValid(d) && !d.Validate()
  {
  }

  /** `maps_npu_gemm`'s descriptor: output stationary, tiles of 16. */
  function GemmDescriptor(a: int, b: int, c: int, m: int, n: int, k: int): Descriptor
  {
    Descriptor(m, n, k, a, b, c, OS, 16, 16, 16)
  }

  /** What a poll loop makes of STATUS on a settled device. */
  function Polled(device: NpuDevice): int
    reads device, device.controller
  {
    match device.controller.state case DONE => 0 case ERROR => -2 case IDLE => -1 case BUSY => -1
  }

  /** Polls STATUS; on a settled device the first poll decides, unless nothing has been started. */
  method WaitDone(device: NpuDevice, maxPolls: nat) returns (code: int)
    requires device.Valid() && device.Settled()
    ensures maxPolls > 0 ==> code == Polled(device)
    ensures maxPolls == 0 ==> code == -1
  {
    for i := 0 to maxPolls
      invariant i > 0 ==> device.controller.state == IDLE
    {
      var ok, status := device.Read32(STATUS);
      if status == 2 { return 0; }
      if status == 3 { return -2; }
    }
    return -1;
  }

  /** Starting on a block that holds `d`: exactly when the device can run `d`, and then it runs `d`. */
  lemma BlockStarts(d: Descriptor, mem: seq<int>, descAddr: int)
    requires d.Words() && d.Validate() && IsUint32(descAddr) && descAddr % WORD_BYTES == 0
    requires descAddr / WORD_BYTES + WORD_COUNT <= |mem|
    ensures var mem' := Overlaid(mem, descAddr / WORD_BYTES, Encode(d));
            && (Startable(mem', descAddr) <==> d.NonNegativeWords() && InMemory(d, |mem|) && FirstTileFits(d))
            && (Startable(mem', descAddr) ==> Loaded(mem', descAddr).1 == d)
  {
    hide Loaded;
    hide Descriptor.Validate;
    hide FirstTileFits;
    hide InMemory;
    StoredThenLoaded(d, mem, descAddr);
  }

  /** `maps_npu_start`: the device runs what it finds at `descAddr`, if it has a memory and can. */
  method Start(device: NpuDevice, descAddr: int)
    requires device.Valid() && device.Settled() && IsUint32(descAddr)
    modifies device`descAddr, device.controller.Scratch(), device.controller.Dram()
    ensures device.Valid() && device.Settled() && device.memory == old(device.memory)
    ensures device.memory == null ==> device.Shown() == old(device.Shown())
    ensures device.memory != null ==>
              var mem := old(device.memory.Contents());
              && Polled(device) == (if Startable(mem, descAddr) then 0 else -2)
              && (if Startable(mem, descAddr) then RunOutcome(Loaded(mem, descAddr).1, mem, device.memory.Contents())
                  else device.memory.Contents() == mem)
  {
    hide RunOutcome;
    hide Loaded;
    hide Startable;
    var ok := device.Write32(DESC_ADDR, descAddr);
    ok := device.Write32(CMD, CMD_START);
  }

  /** `maps_npu_gemm`: `block` and `at` say where the descriptor pointer points, `descAddr` is what the device is told.  It
      never times out on a device with a memory and reports -3 exactly for a null pointer or an invalid descriptor.
      Otherwise the descriptor is stored and the device runs what it then finds at `descAddr`; 0 says that it could.  If
      both name one block, `BlockStarts` says that it runs this descriptor: nothing outside C changes and, if the plan is
      free of hazards, C receives the product. */
  method Gemm(device: NpuDevice, block: Memory?, at: nat, descAddr: int, a: int, b: int, c: int, m: int, n: int, k: int)
    returns (code: int)
    requires device.Valid() && device.Settled() && IsUint32(descAddr)
    requires block != null ==> block.Valid() && at + WORD_COUNT <= block.data.Length
    requires block != null ==> block.data !in device.controller.Buffers()
    requires IsUint32(a) && IsUint32(b) && IsUint32(c) && IsUint32(m) && IsUint32(n) && IsUint32(k)
    modifies device`descAddr, device.controller.Scratch(), device.controller.Dram(), Cells(block)
    ensures device.Valid() && device.Settled() && device.memory == old(device.memory)
    ensures var d := GemmDescriptor(a, b, c, m, n, k);
            && (code == -3 <==> block == null || !d.Validate())
            && (code == -3 ==> device.descAddr == old(device.descAddr) && device.Shown() == old(device.Shown()))
            && (code == -3 && device.memory != null ==>
                  device.memory.Contents() == Stored(block, device.memory, at, d, old(device.memory.Contents())))
    ensures block != null && (device.memory == null || block.data != device.memory.data) ==>
              block.Contents() == Overlaid(old(block.Contents()), at, Encode(GemmDescriptor(a, b, c, m, n, k)))
    ensures code != -3 && device.memory == null ==> device.Shown() == old(device.Shown()) && code == Polled(device)
    ensures code != -3 && device.memory != null ==>
              var d := GemmDescriptor(a, b, c, m, n, k);
              var mem := Stored(block, device.memory, at, d, old(device.memory.Contents()));
              && (code == 0 <==> Startable(mem, descAddr)) && (code == 0 || code == -2)
              && (code == 0 ==> RunOutcome(Loaded(mem, descAddr).1, mem, device.memory.Contents()))
              && (code != 0 ==> device.memory.Contents() == mem)
  {
    hide RunOutcome;
    hide Overlaid;
    hide Loaded;
    hide Startable;
    var d := GemmDescriptor(a, b, c, m, n, k);
    DriverTestIsNecessary(d);
    hide Descriptor.Validate;
    InitDescriptor(block, at, d);
    if block == null || !DescValid(d) { return -3; }
    Start(device, descAddr);
    code := WaitDone(device, 1000000);
  }

  /** The words a pointer into `block` reaches. */
  ghost function Cells(block: Memory?): set<object>
  {
    if block == null then {} else {block.data}
  }

  /** DRAM once the descriptor is stored: changed only if the descriptor pointer points there. */
  ghost function Stored(block: Memory?, memory: Memory, at: nat, d: Descriptor, dram: seq<int>): seq<int>
    requires block != null ==> at + WORD_COUNT <= block.data.Length
  {
    if block != null && block.data == memory.data then Overlaid(dram, at, Encode(d)) else dram
  }

  /** `maps_npu_desc_init`: ten word stores into the caller's descriptor, none through a null pointer. */
  method InitDescriptor(block: Memory?, at: nat, d: Descriptor)
    requires d.Words() && (block != null ==> block.Valid() && at + WORD_COUNT <= block.data.Length)
    modifies Cells(block)
    ensures block != null ==> block.Contents() == Overlaid(old(block.Contents()), at, Encode(d))
    ensures block != null ==> BlockHolds(d, block.Contents(), at)
  {
    hide BlockHolds;
    if block == null { return; }
    var raw := Encode(d);
    for i := 0 to 10
      invariant block.Contents() == Overlaid(old(block.Contents()), at, raw[..i])
    {
      var ok := block.Write(at + i, raw[i]);
    }
    assert raw[..10] == raw;
    StoredByWord(d, old(block.Contents()), 4 * at);
  }
}
