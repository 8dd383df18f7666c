/** Loading raw bytes and ELF32 images over the bus (src/maps-sim/src/system/loader.cpp).  A file is the sequence of its
    bytes; every read below is checked to lie inside it. */
module Loader {
  import opened Words
  import opened Options
  import opened ByteView
  import opened Device
  import opened SystemBus

  const HEADER_SIZE: int := 52
  const SEGMENT_HEADER_SIZE: int := 32
  const ELFCLASS32: int := 1
  const ELFDATA2LSB: int := 1
  const ET_EXEC: int := 2
  const EM_RISCV: int := 243
  const PT_LOAD: int := 1

  ghost predicate AreBytes(file: seq<int>)
  {
    forall i :: 0 <= i < |file| ==> IsByte(file[i])
  }

  predicate RangeOk(offset: int, size: int, total: int)
  {
    offset <= total && size <= total - offset
  }

  /** The size the loader works with: the file's length cut to 32 bits, never more than the length. */
  function Size(file: seq<int>): (r: int)
    ensures IsUint32(r) && r <= |file|
  {
    U32(|file|)
  }

  predicate HeaderSupported(file: seq<int>)
  {
    && Size(file) >= HEADER_SIZE
    && file[0] == 0x7f && file[1] == 0x45 && file[2] == 0x4c && file[3] == 0x46
    && file[4] == ELFCLASS32 && file[5] == ELFDATA2LSB
    && Half(file, 16) == ET_EXEC && Half(file, 18) == EM_RISCV
  }

  predicate HeaderOk(file: seq<int>)
  {
    && HeaderSupported(file)
    && Half(file, 42) >= SEGMENT_HEADER_SIZE
    && RangeOk(Word(file, 28), U32(Half(file, 42) * Half(file, 44)), Size(file))
  }

  function SegmentCount(file: seq<int>): (n: int)
    requires HeaderOk(file)
  {
    Half(file, 44)
  }

  lemma LittleEndianRange(file: seq<int>, offset: int)
    requires AreBytes(file) && 0 <= offset
    ensures offset + 1 < |file| ==> 0 <= Half(file, offset) < 0x1_0000
    ensures offset + 3 < |file| ==> IsUint32(Word(file, offset))
  {
  }

  /** The offset of a segment header: the 32-bit arithmetic is exact and the whole header is in the file. */
  function SegmentHeader(file: seq<int>, i: int): (r: int)
    requires AreBytes(file) && HeaderOk(file) && 0 <= i < SegmentCount(file)
    ensures r == Word(file, 28) + Times(i, Half(file, 42)) && 0 <= r && r + SEGMENT_HEADER_SIZE <= Size(file)
  {
    LittleEndianRange(file, 28);
    LittleEndianRange(file, 42);
    LittleEndianRange(file, 44);
    TableInside(Half(file, 42), Half(file, 44), i);
    U32(Word(file, 28) + U32(i * Half(file, 42)))
  }

  lemma TableInside(entry: int, count: int, i: int)
    requires 0 <= entry < 0x1_0000 && 0 <= i < count < 0x1_0000
    ensures 0 <= Times(i, entry) == i * entry && Times(i, entry) + entry <= entry * count == U32(entry * count)
  {
    MultiplesGrow(i + 1, count, entry);
    MultiplesGrow(i, count, entry);
    MultiplesGrow(count, 0x1_0000, entry);
    hide Times;
    TimesIs(count, entry);
    TimesIs(i, entry);
    TimesIs(0x1_0000, entry);
  }

  lemma TimesIs(x: nat, y: nat)
    ensures Times(x, y) == x * y == y * x
  {
  }

  datatype Segment = Segment(kind: int, offset: int, vaddr: int, paddr: int, filesz: int, memsz: int)
  {
    function LoadAddr(): int
    {
      if paddr != 0 then paddr else vaddr
    }

    predicate Covers(x: int)
    {
      kind == PT_LOAD && LoadAddr() <= x < LoadAddr() + memsz
    }

    predicate Words()
    {
      IsUint32(offset) && IsUint32(LoadAddr()) && 0 <= filesz && IsUint32(memsz)
    }

    /** The bytes named by the header lie in a file of this size, and fit the memory they are given. */
    predicate FitsFile(size: int)
    {
      filesz <= memsz && RangeOk(offset, filesz, size)
    }

    /** The memory lies in DRAM; apart from that only the single byte of the console's data register can be written. */
    predicate Lands(t: Target)
    {
      memsz == 0 || LoadAddr() + memsz <= |t.bytes|
      || (memsz == 1 && LoadAddr() == CONSOLE_BASE + CONSOLE_DATA && t.console.Some?)
    }
  }

  function SegmentAt(file: seq<int>, i: int): (s: Segment)
    requires AreBytes(file) && HeaderOk(file) && 0 <= i < SegmentCount(file)
    ensures s.Words()
  {
    var ph := SegmentHeader(file, i);
    LittleEndianRange(file, ph + 4);
    LittleEndianRange(file, ph + 8);
    LittleEndianRange(file, ph + 12);
    LittleEndianRange(file, ph + 16);
    LittleEndianRange(file, ph + 20);
    Segment(Word(file, ph), Word(file, ph + 4), Word(file, ph + 8), Word(file, ph + 12), Word(file, ph + 16),
            Word(file, ph + 20))
  }

  /** The memory image of a segment: its bytes in the file, then zeros. */
  function Image(file: seq<int>, s: Segment): (data: seq<int>)
    requires AreBytes(file) && s.Words() && s.FitsFile(|file|)
    ensures AreBytes(data) && |data| == s.memsz
    ensures forall x :: 0 <= x < s.memsz ==> data[x] == if x < s.filesz then file[s.offset + x] else 0
  {
    file[s.offset..s.offset + s.filesz] + seq(s.memsz - s.filesz, _ => 0)
  }

  // ----- byte stores in order -----

  /** The stores of data[i..] at consecutive 32-bit addresses, stopping at the first that is refused. */
  function PokeAll(t: Target, base: int, data: seq<int>, i: nat): (bool, Target)
    requires i <= |data|
    decreases |data| - i
  {
    if i == |data| then (true, t)
    else
      var (ok, t') := Poke(t, U32(base + i), data[i]);
      if ok then PokeAll(t', base, data, i + 1) else (false, t')
  }

  lemma {:induction false} PokeAllSplit(t: Target, base: int, a: seq<int>, b: seq<int>, i: nat)
    requires i <= |a|
    ensures PokeAll(t, base, a + b, i)
         == var (ok, t') := PokeAll(t, base, a, i); if ok then PokeAll(t', base, a + b, |a|) else (false, t')
    decreases |a| - i
  {
    if i < |a| {
      var (ok, t') := Poke(t, U32(base + i), a[i]);
      if ok { PokeAllSplit(t', base, a, b, i + 1); }
    }
  }

  /** The image of a segment is stored by storing its bytes in the file and then the zeros. */
  lemma ImageSplit(t: Target, file: seq<int>, s: Segment)
    requires AreBytes(file) && s.Words() && s.FitsFile(|file|)
    ensures PokeAll(t, s.LoadAddr(), Image(file, s), 0)
         == var (ok, t') := PokeAll(t, s.LoadAddr(), file[s.offset..s.offset + s.filesz], 0);
            if ok then PokeAll(t', s.LoadAddr(), Image(file, s), s.filesz) else (false, t')
    ensures s.filesz == 0 ==> PokeAll(t, s.LoadAddr(), file[s.offset..s.offset + s.filesz], 0) == (true, t)
  {
    PokeAllSplit(t, s.LoadAddr(), file[s.offset..s.offset + s.filesz], seq(s.memsz - s.filesz, _ => 0), 0);
  }

  /** The whole range is in DRAM: every store is accepted and the data replaces exactly that range. */
  lemma {:induction false} PokeAllInDram(t: Target, base: int, data: seq<int>, i: nat)
    requires 0 <= base && base + |data| <= |t.bytes| <= NPU_BASE && i <= |data|
    ensures PokeAll(t, base, data, i)
         == (true, t.(bytes := t.bytes[..base + i] + data[i..] + t.bytes[base + |data|..]))
    decreases |data| - i
  {
    if i == |data| {
      assert t.bytes[..base + i] + data[i..] + t.bytes[base + |data|..] == t.bytes;
    } else {
      var t' := t.(bytes := t.bytes[base + i := data[i]]);
      PokeAllInDram(t', base, data, i + 1);
      assert t'.bytes[..base + i + 1] + data[i + 1..] + t'.bytes[base + |data|..]
          == t.bytes[..base + i] + data[i..] + t.bytes[base + |data|..];
    }
  }

  /** A refused range: some byte is outside DRAM, and it is not the console's data register alone. */
  lemma {:induction false} PokeAllRefused(t: Target, base: int, data: seq<int>, i: nat)
    requires IsUint32(base) && i < |data| && |t.bytes| <= NPU_BASE && base + |data| > |t.bytes|
    requires i == 0 && |data| == 1 ==> base != CONSOLE_BASE + CONSOLE_DATA || t.console.None?
    requires i > 0 ==> base + i <= |t.bytes|
    ensures !PokeAll(t, base, data, i).0
    decreases |data| - i
  {
    var (ok, t') := Poke(t, U32(base + i), data[i]);
    if ok && base + i < |t.bytes| { PokeAllRefused(t', base, data, i + 1); }
  }

  lemma ConsoleByte(t: Target, data: seq<int>)
    requires |data| == 1 && t.console.Some?
    ensures PokeAll(t, CONSOLE_BASE + CONSOLE_DATA, data, 0) == (true, t.(console := Some(t.console.value + data)))
  {
    assert [data[0]] == data;
    var t' := Poke(t, CONSOLE_BASE + CONSOLE_DATA, data[0]).1;
    assert PokeAll(t', CONSOLE_BASE + CONSOLE_DATA, data, 1) == (true, t');
  }

  // ----- the segments in header order -----

  function LoadFrom(t: Target, file: seq<int>, i: int): (bool, Target)
    requires AreBytes(file) && HeaderOk(file) && 0 <= i <= SegmentCount(file)
    decreases SegmentCount(file) - i
  {
    if i == SegmentCount(file) then (true, t)
    else
      var s := SegmentAt(file, i);
      if s.kind != PT_LOAD then LoadFrom(t, file, i + 1)
      else if !s.FitsFile(Size(file)) then (false, t)
      else
        var (ok, t') := PokeAll(t, s.LoadAddr(), Image(file, s), 0);
        if ok then LoadFrom(t', file, i + 1) else (false, t')
  }

  predicate Loadable(t: Target, file: seq<int>, j: int)
    requires AreBytes(file) && HeaderOk(file) && 0 <= j < SegmentCount(file)
  {
    var s := SegmentAt(file, j);
    s.kind == PT_LOAD ==> s.FitsFile(Size(file)) && s.Lands(t)
  }

  predicate Covered(file: seq<int>, j: int, x: int)
    requires AreBytes(file) && HeaderOk(file) && 0 <= j < SegmentCount(file)
  {
    SegmentAt(file, j).Covers(x)
  }

  /** The byte segment j gives to address x. */
  function ByteOf(file: seq<int>, j: int, x: int): int
    requires AreBytes(file) && HeaderOk(file) && 0 <= j < SegmentCount(file)
    requires Covered(file, j, x) && SegmentAt(file, j).FitsFile(Size(file))
  {
    Image(file, SegmentAt(file, j))[x - SegmentAt(file, j).LoadAddr()]
  }

  /** Segment j is the last from i on that covers x. */
  ghost predicate LastCover(file: seq<int>, i: int, j: int, x: int)
    requires AreBytes(file) && HeaderOk(file) && 0 <= i <= SegmentCount(file)
  {
    i <= j < SegmentCount(file) && Covered(file, j, x)
    && forall later :: j < later < SegmentCount(file) ==> !Covered(file, later, x)
  }

  ghost predicate Uncovered(file: seq<int>, i: int, x: int)
    requires AreBytes(file) && HeaderOk(file) && 0 <= i <= SegmentCount(file)
  {
    forall j :: i <= j < SegmentCount(file) ==> !Covered(file, j, x)
  }

  /** `after` is `before` overlaid with segments i, i+1, ...: the last segment that covers an address gives its byte, and
      bytes no segment covers are kept. */
  ghost predicate Overlaid(file: seq<int>, i: int, before: seq<int>, after: seq<int>)
    requires AreBytes(file) && HeaderOk(file) && 0 <= i <= SegmentCount(file)
  {
    && |after| == |before|
    && (forall x, j :: 0 <= x < |after| && LastCover(file, i, j, x) ==>
          SegmentAt(file, j).FitsFile(Size(file)) && after[x] == ByteOf(file, j, x))
    && (forall x :: 0 <= x < |after| && Uncovered(file, i, x) ==> after[x] == before[x])
  }

  /** One PT_LOAD segment: accepted exactly when it lands, and then it replaces exactly the bytes it covers. */
  lemma SegmentStored(t: Target, file: seq<int>, i: int)
    requires AreBytes(file) && HeaderOk(file) && 0 <= i < SegmentCount(file) && |t.bytes| <= NPU_BASE
    requires SegmentAt(file, i).kind == PT_LOAD && SegmentAt(file, i).FitsFile(Size(file))
    ensures var s := SegmentAt(file, i);
            var (ok, t') := PokeAll(t, s.LoadAddr(), Image(file, s), 0);
            && (ok <==> s.Lands(t)) && t'.console.Some? == t.console.Some?
            && (ok ==> |t'.bytes| == |t.bytes|
                       && forall x :: 0 <= x < |t.bytes| ==>
                            t'.bytes[x] == if Covered(file, i, x) then ByteOf(file, i, x) else t.bytes[x])
            && (ok && s.LoadAddr() < |t.bytes| ==> t'.console == t.console)
  {
    var s := SegmentAt(file, i);
    hide SegmentAt;
    var data := Image(file, s);
    PokeAllKeepsConsole(t, s.LoadAddr(), data, 0);
    if s.memsz == 0 {
    } else if s.LoadAddr() + s.memsz <= |t.bytes| {
      PokeAllInDram(t, s.LoadAddr(), data, 0);
    } else if s.Lands(t) {
      ConsoleByte(t, data);
    } else {
      PokeAllRefused(t, s.LoadAddr(), data, 0);
    }
  }

  lemma {:induction false} PokeAllKeepsConsole(t: Target, base: int, data: seq<int>, i: nat)
    requires i <= |data|
    ensures PokeAll(t, base, data, i).1.console.Some? == t.console.Some?
    decreases |data| - i
  {
    if i < |data| {
      var (ok, t') := Poke(t, U32(base + i), data[i]);
      if ok { PokeAllKeepsConsole(t', base, data, i + 1); }
    }
  }

  lemma OverlayStep(file: seq<int>, i: int, before: seq<int>, stored: seq<int>, after: seq<int>)
    requires AreBytes(file) && HeaderOk(file) && 0 <= i < SegmentCount(file)
    requires |stored| == |before| && Overlaid(file, i + 1, stored, after)
    requires SegmentAt(file, i).kind == PT_LOAD ==> SegmentAt(file, i).FitsFile(Size(file))
    requires forall x :: 0 <= x < |before| ==>
               stored[x] == if Covered(file, i, x) then ByteOf(file, i, x) else before[x]
    ensures Overlaid(file, i, before, after)
  {
    hide SegmentAt;
    hide ByteOf;
    forall x, j | 0 <= x < |after| && LastCover(file, i, j, x)
      ensures SegmentAt(file, j).FitsFile(Size(file)) && after[x] == ByteOf(file, j, x)
    {
      if j > i { assert LastCover(file, i + 1, j, x); }
      else { assert Uncovered(file, i + 1, x); }
    }
    forall x | 0 <= x < |after| && Uncovered(file, i, x) ensures after[x] == before[x] {
      assert !Covered(file, i, x) && Uncovered(file, i + 1, x);
    }
  }

  /** Main result for every file: loading succeeds exactly when every PT_LOAD segment fits the file and lands, and it then
      overlays exactly the segments, in header order. */
  lemma {:induction false} LoadOverlays(t: Target, file: seq<int>, i: int)
    requires AreBytes(file) && HeaderOk(file) && 0 <= i <= SegmentCount(file) && |t.bytes| <= NPU_BASE
    ensures var (ok, t') := LoadFrom(t, file, i);
            && (ok <==> forall j :: i <= j < SegmentCount(file) ==> Loadable(t, file, j))
            && (ok ==> Overlaid(file, i, t.bytes, t'.bytes))
    decreases SegmentCount(file) - i
  {
    hide HeaderOk;
    hide SegmentAt;
    hide PokeAll;
    hide Image;
    hide ByteOf;
    if i < SegmentCount(file) {
      var s := SegmentAt(file, i);
      var stored := t;
      if s.kind == PT_LOAD {
        if !s.FitsFile(Size(file)) {
          assert !Loadable(t, file, i);
          return;
        }
        SegmentStored(t, file, i);
        stored := PokeAll(t, s.LoadAddr(), Image(file, s), 0).1;
        if !s.Lands(t) {
          assert !Loadable(t, file, i);
          return;
        }
      }
      LoadOverlays(stored, file, i + 1);
      hide Overlaid;
      assert forall j :: i < j < SegmentCount(file) ==> (Loadable(stored, file, j) <==> Loadable(t, file, j));
      if LoadFrom(t, file, i).0 { OverlayStep(file, i, t.bytes, stored.bytes, LoadFrom(t, file, i).1.bytes); }
    }
  }

  // ----- the loaders -----

  method LoadBytes(bus: Bus, base: int, bytes: seq<int>) returns (ok: bool)
    requires bus.Valid() && IsUint32(base) && AreBytes(bytes)
    modifies bus.DramCells(), bus.ConsoleCells()
    ensures bus.Valid()
    ensures (ok, bus.State()) == PokeAll(old(bus.State()), base, bytes, 0)
  {
    hide Poke;
    for i := 0 to |bytes|
      invariant bus.Valid()
      invariant PokeAll(bus.State(), base, bytes, i) == PokeAll(old(bus.State()), base, bytes, 0)
    {
      ok := bus.Write8(U32(base + i), bytes[i]);
      if !ok { return; }
    }
    return true;
  }

  /** One PT_LOAD segment: its bytes from the file, then zeros up to its size in memory. */
  method LoadSegment(bus: Bus, file: seq<int>, s: Segment) returns (ok: bool)
    requires bus.Valid() && AreBytes(file) && s.Words() && s.FitsFile(|file|)
    modifies bus.DramCells(), bus.ConsoleCells()
    ensures bus.Valid()
    ensures (ok, bus.State()) == PokeAll(old(bus.State()), s.LoadAddr(), Image(file, s), 0)
  {
    hide NpuDevice.Valid;
    hide NpuDevice.Settled;
    hide Poke;
    hide Bus.Valid;
    hide Bus.State;
    hide Bus.Reach;
    hide U32;
    hide PokeAll;
    hide Image;
    ImageSplit(bus.State(), file, s);
    if s.filesz != 0 {
      ok := LoadBytes(bus, s.LoadAddr(), file[s.offset..s.offset + s.filesz]);
      if !ok { return; }
    }
    ok := FillZeros(bus, s.LoadAddr(), Image(file, s), s.filesz);
  }

  /** The second loop: the zeros of an image, from index `start` on. */
  method FillZeros(bus: Bus, base: int, data: seq<int>, start: nat) returns (ok: bool)
    requires bus.Valid() && start <= |data| && forall x :: start <= x < |data| ==> data[x] == 0
    modifies bus.DramCells(), bus.ConsoleCells()
    ensures bus.Valid()
    ensures (ok, bus.State()) == PokeAll(old(bus.State()), base, data, start)
  {
    hide NpuDevice.Valid;
    hide NpuDevice.Settled;
    hide Poke;
    hide Bus.Valid;
    hide Bus.State;
    hide Bus.Reach;
    hide U32;
    for zero := start to |data|
      invariant bus.Valid()
      invariant PokeAll(bus.State(), base, data, zero) == PokeAll(old(bus.State()), base, data, start)
    {
      ok := bus.Write8(U32(base + zero), 0);
      if !ok { return; }
    }
    return true;
  }

  /** The loader after the file is read: the entry point is reported as soon as the header is recognised. */
  method LoadElf(bus: Bus, file: seq<int>) returns (ok: bool, entry: int)
    requires bus.Valid() && AreBytes(file)
    modifies bus.DramCells(), bus.ConsoleCells()
    ensures bus.Valid()
    ensures entry == if HeaderSupported(file) then Word(file, 24) else 0
    ensures !HeaderOk(file) ==> !ok && bus.State() == old(bus.State())
    ensures HeaderOk(file) ==> (ok, bus.State()) == LoadFrom(old(bus.State()), file, 0)
    ensures ok <==> HeaderOk(file) && forall j :: 0 <= j < SegmentCount(file) ==> Loadable(old(bus.State()), file, j)
    ensures ok ==> Overlaid(file, 0, old(bus.Dram()), bus.Dram())
  {
    hide NpuDevice.Valid;
    hide NpuDevice.Settled;
    hide Word;
    hide Image;
    hide Loadable;
    hide PokeAll;
    hide Overlaid;
    entry := 0;
    if !HeaderSupported(file) { return false, entry; }
    entry := Word(file, 24);
    if !HeaderOk(file) { return false, entry; }
    LoadOverlays(bus.State(), file, 0);
    hide HeaderOk;
    for i := 0 to SegmentCount(file)
      invariant bus.Valid()
      invariant LoadFrom(bus.State(), file, i) == LoadFrom(old(bus.State()), file, 0)
    {
      var s := SegmentAt(file, i);
      if s.kind == PT_LOAD {
        if !s.FitsFile(Size(file)) { return false, entry; }
        ok := LoadSegment(bus, file, s);
        if !ok { return; }
      }
    }
    return true, entry;
  }

  // ----- the format, byte by byte -----

  /** What the file header says: 32 bits, little endian, an executable for RISC-V. */
  lemma HeaderByOffset(file: seq<int>)
    requires |file| < 0x1_0000_0000
    ensures HeaderSupported(file) <==>
              && |file| >= 52 && file[0] == 127 && file[1] == 'E' as int && file[2] == 'L' as int && file[3] == 'F' as int
              && file[4] == 1 && file[5] == 1
              && file[16] + 0x100 * file[17] == 2 && file[18] + 0x100 * file[19] == 243
  {
  }

  /** Where the table of segments stands, and where in it the fields of segment i. */
  lemma SegmentByOffset(file: seq<int>, i: int)
    requires AreBytes(file) && HeaderOk(file) && 0 <= i < file[44] + 0x100 * file[45]
    ensures SegmentCount(file) == file[44] + 0x100 * file[45]
    ensures var entry := file[42] + 0x100 * file[43];
            var ph := file[28] + 0x100 * file[29] + 0x1_0000 * file[30] + 0x100_0000 * file[31] + Times(i, entry);
            var s := SegmentAt(file, i);
            && entry >= 32 && 0 <= ph && ph + 32 <= |file|
            && s.kind == LittleEndian(file, ph) && s.offset == LittleEndian(file, ph + 4)
            && s.vaddr == LittleEndian(file, ph + 8) && s.paddr == LittleEndian(file, ph + 12)
            && s.filesz == LittleEndian(file, ph + 16) && s.memsz == LittleEndian(file, ph + 20)
  {
    hide Times;
    assert SegmentHeader(file, i) + SEGMENT_HEADER_SIZE <= Size(file) <= |file|;
  }

  function LittleEndian(file: seq<int>, at: int): int
    requires 0 <= at && at + 4 <= |file|
  {
    file[at] + 256 * (file[at + 1] + 256 * (file[at + 2] + 256 * file[at + 3]))
  }

  /** Only segments of type 1 are loaded, to their physical address if they have one. */
  lemma SegmentsByKind(s: Segment, x: int)
    ensures s.Covers(x) <==> s.kind == 1 && s.LoadAddr() <= x < s.LoadAddr() + s.memsz
    ensures s.LoadAddr() == if s.paddr == 0 then s.vaddr else s.paddr
  {
  }
}
