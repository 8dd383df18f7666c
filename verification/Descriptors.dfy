/** The ten-word NPU descriptor (src/maps-sim/src/npu/descriptor.cpp). */
module Descriptors {
  import opened Words
  import opened Systolic
  import opened Storage

  const ARRAY_ROWS: int := 16
  const ARRAY_COLS: int := 16
  const TILE_SIZE: int := 16
  const WORD_COUNT: int := 10

  /** Field values of a descriptor; base addresses are byte addresses. */
  datatype Descriptor = Descriptor(m: int, n: int, k: int, aBase: int, bBase: int, cBase: int, mode: Dataflow,
                                   tileM: int, tileN: int, tileK: int)
  {
    /** Every field is an unsigned 32-bit word, and the mode has its canonical name. */
    predicate Words()
    {
      && IsUint32(m) && IsUint32(n) && IsUint32(k) && IsUint32(aBase) && IsUint32(bBase) && IsUint32(cBase)
      && IsUint32(tileM) && IsUint32(tileN) && IsUint32(tileK)
      && (mode.Invalid? ==> 3 <= mode.code < TWO32)
    }

    /** Every field survives a round trip through signed memory words. */
    predicate NonNegativeWords()
    {
      && m < TWO31 && n < TWO31 && k < TWO31 && aBase < TWO31 && bBase < TWO31 && cBase < TWO31
      && tileM < TWO31 && tileN < TWO31 && tileK < TWO31 && (mode.Invalid? ==> mode.code < TWO31)
    }

    predicate Validate()
    {
      && m != 0 && n != 0 && k != 0
      && tileM != 0 && tileN != 0 && tileK != 0
      && (match mode
          case OS => tileM <= ARRAY_ROWS && tileN <= ARRAY_COLS
          case WS => tileK <= ARRAY_ROWS && tileN <= ARRAY_COLS
          case IS => tileM <= ARRAY_ROWS && tileK <= ARRAY_COLS
          case Invalid(_) => false)
      && aBase != 0 && bBase != 0 && cBase != 0
      && aBase % WORD_BYTES == 0 && bBase % WORD_BYTES == 0 && cBase % WORD_BYTES == 0
    }
  }

  const DefaultDescriptor: Descriptor := Descriptor(0, 0, 0, 0, 0, 0, OS, TILE_SIZE, TILE_SIZE, TILE_SIZE)

  function ModeCode(mode: Dataflow): int
  {
    match mode case WS => 0 case OS => 1 case IS => 2 case Invalid(c) => c
  }

  function ModeOf(code: nat): Dataflow
  {
    if code == 0 then WS else if code == 1 then OS else if code == 2 then IS else Invalid(code)
  }

  /** The words a descriptor is stored as. */
  function Encode(d: Descriptor): (raw: seq<int>)
    ensures |raw| == WORD_COUNT
  {
    [AsInt32(d.m), AsInt32(d.n), AsInt32(d.k), AsInt32(d.aBase), AsInt32(d.bBase), AsInt32(d.cBase),
     AsInt32(ModeCode(d.mode)), AsInt32(d.tileM), AsInt32(d.tileN), AsInt32(d.tileK)]
  }

  function Decode(raw: seq<int>): Descriptor
    requires |raw| == WORD_COUNT && NonNegative(raw)
  {
    Descriptor(raw[0], raw[1], raw[2], raw[3], raw[4], raw[5], ModeOf(raw[6]), raw[7], raw[8], raw[9])
  }

  /** `mem` with the words of `raw` laid over it from word `base` on, as far as it reaches. */
  function Overlaid(mem: seq<int>, base: nat, raw: seq<int>): (r: seq<int>)
    ensures |r| == |mem|
    ensures forall x :: 0 <= x < |mem| ==> r[x] == if base <= x < base + |raw| then raw[x - base] else mem[x]
  {
    seq(|mem|, x requires 0 <= x < |mem| => if base <= x < base + |raw| then raw[x - base] else mem[x])
  }

  /** The ten words at byte address `base` exist and none is negative as a signed word. */
  predicate Readable(mem: seq<int>, base: int)
  {
    && 0 <= base && base % WORD_BYTES == 0 && base / WORD_BYTES + WORD_COUNT <= |mem|
    && NonNegative(mem[base / WORD_BYTES..base / WORD_BYTES + WORD_COUNT])
  }

  predicate NonNegative(raw: seq<int>)
  {
    forall i :: 0 <= i < |raw| ==> 0 <= raw[i] < TWO31
  }

  /** Which word holds which field, as signed words. */
  predicate BlockHolds(d: Descriptor, mem: seq<int>, w: int)
  {
    && 0 <= w && w + 10 <= |mem|
    && mem[w] == AsInt32(d.m) && mem[w + 1] == AsInt32(d.n) && mem[w + 2] == AsInt32(d.k)
    && mem[w + 3] == AsInt32(d.aBase) && mem[w + 4] == AsInt32(d.bBase) && mem[w + 5] == AsInt32(d.cBase)
    && (match d.mode
        case WS => mem[w + 6] == 0
        case OS => mem[w + 6] == 1
        case IS => mem[w + 6] == 2
        case Invalid(code) => mem[w + 6] == AsInt32(code))
    && mem[w + 7] == AsInt32(d.tileM) && mem[w + 8] == AsInt32(d.tileN) && mem[w + 9] == AsInt32(d.tileK)
  }

  /** The ten words of a block that is accepted: sizes, bases, dataflow and tile sizes of an array of 16 by 16 cells. */
  predicate BlockValid(mem: seq<int>, w: int)
  {
    && 0 <= w && w + 10 <= |mem| && (forall i :: w <= i < w + 10 ==> 0 <= mem[i] < 0x8000_0000)
    && mem[w] > 0 && mem[w + 1] > 0 && mem[w + 2] > 0
    && mem[w + 3] > 0 && mem[w + 4] > 0 && mem[w + 5] > 0
    && mem[w + 3] % 4 == 0 && mem[w + 4] % 4 == 0 && mem[w + 5] % 4 == 0
    && mem[w + 6] <= 2 && mem[w + 7] > 0 && mem[w + 8] > 0 && mem[w + 9] > 0
    && (mem[w + 6] == 0 || mem[w + 6] == 2 ==> mem[w + 9] <= 16)
    && (mem[w + 6] == 1 || mem[w + 6] == 2 ==> mem[w + 7] <= 16)
    && (mem[w + 6] == 0 || mem[w + 6] == 1 ==> mem[w + 8] <= 16)
  }

  /** The outcome of loading the descriptor at byte address `base`. */
  function Loaded(mem: seq<int>, base: int): (r: (bool, Descriptor))
    ensures r.1.Words() && r.1.NonNegativeWords()
  {
    if !Readable(mem, base) then (false, DefaultDescriptor) else
      var d := Decode(mem[base / WORD_BYTES..base / WORD_BYTES + WORD_COUNT]);
      (d.Validate(), d)
  }

  method LoadFromMemory(memory: Memory, base: int) returns (ok: bool, d: Descriptor)
    requires memory.Valid() && IsUint32(base)
    ensures (ok, d) == Loaded(memory.Contents(), base)
    ensures ok <==> base % 4 == 0 && BlockValid(memory.Contents(), base / 4)
    ensures ok ==> BlockHolds(d, memory.Contents(), base / 4)
  {
    hide BlockValid;
    hide BlockHolds;
    LoadedByWord(memory.Contents(), base);
    hide Descriptor.Validate;
    hide Descriptor.Words;
    hide Descriptor.NonNegativeWords;
    d := DefaultDescriptor;
    if base % WORD_BYTES != 0 { return false, d; }
    var raw := new int[10](_ => 0);
    ghost var mem := memory.Contents();
    var baseWord := base / WORD_BYTES;
    for i := 0 to 10
      invariant i == 0 || baseWord + i <= |mem|
      invariant forall x :: 0 <= x < i ==> raw[x] == mem[baseWord + x] && 0 <= raw[x] < TWO31
    {
      var read, value := memory.Read(U32(baseWord + i));
      if !read || value < 0 || value >= TWO31 {
        if baseWord + WORD_COUNT <= |mem| {
          assert !(0 <= mem[baseWord..baseWord + WORD_COUNT][i] < TWO31);
        }
        return false, d;
      }
      raw[i] := value;
    }
    assert raw[..] == mem[baseWord..baseWord + WORD_COUNT];
    d := Decode(raw[..]);
    ok := d.Validate();
  }

  method StoreToMemory(d: Descriptor, memory: Memory, base: int) returns (ok: bool)
    requires d.Words() && memory.Valid() && IsUint32(base)
    modifies memory.data
    ensures ok <==> d.Validate() && base % WORD_BYTES == 0 && base / WORD_BYTES + WORD_COUNT <= memory.data.Length
    ensures memory.Contents() == if d.Validate() && base % WORD_BYTES == 0
                                 then Overlaid(old(memory.Contents()), base / WORD_BYTES, Encode(d))
                                 else old(memory.Contents())
    ensures ok ==> BlockHolds(d, memory.Contents(), base / 4)
  {
    if base % WORD_BYTES == 0 { StoredByWord(d, old(memory.Contents()), base); }
    hide BlockHolds;
    if !d.Validate() || base % WORD_BYTES != 0 { return false; }
    var raw := Encode(d);
    var baseWord := base / WORD_BYTES;
    for i := 0 to 10
      invariant i == 0 || baseWord + i <= memory.data.Length
      invariant memory.Contents() == Overlaid(old(memory.Contents()), baseWord, raw[..i])
    {
      var written := memory.Write(U32(baseWord + i), raw[i]);
      if !written {
        assert memory.Contents() == Overlaid(old(memory.Contents()), baseWord, raw);
        return false;
      }
    }
    return true;
  }

  /** A stored descriptor is loaded back exactly when no field reaches 2^31; otherwise it is refused. */
  lemma StoredThenLoaded(d: Descriptor, mem: seq<int>, base: int)
    requires d.Words() && d.Validate() && IsUint32(base) && base % WORD_BYTES == 0
    requires base / WORD_BYTES + WORD_COUNT <= |mem|
    ensures var mem' := Overlaid(mem, base / WORD_BYTES, Encode(d));
            Loaded(mem', base) == if d.NonNegativeWords() then (true, d) else (false, DefaultDescriptor)
  {
    hide Descriptor.Validate;
    hide Descriptor.NonNegativeWords;
    hide Encode;
    hide Decode;
    var w, raw := base / WORD_BYTES, Encode(d);
    var mem' := Overlaid(mem, w, raw);
    assert mem'[w..w + WORD_COUNT] == raw;
    EncodedSigns(d);
    if d.NonNegativeWords() {
      EncodedThenDecoded(d);
    }
  }

  lemma EncodedSigns(d: Descriptor)
    requires d.Words()
    ensures NonNegative(Encode(d)) <==> d.NonNegativeWords()
  {
    var raw := Encode(d);
    if NonNegative(raw) {
      assert raw[0] >= 0 && raw[1] >= 0 && raw[2] >= 0 && raw[3] >= 0 && raw[4] >= 0 && raw[5] >= 0;
      assert raw[6] >= 0 && raw[7] >= 0 && raw[8] >= 0 && raw[9] >= 0;
    }
  }

  lemma EncodedThenDecoded(d: Descriptor)
    requires d.Words() && d.NonNegativeWords() && NonNegative(Encode(d))
    ensures Decode(Encode(d)) == d
  {
  }

  /** Loading, word by word: accepted exactly if the ten words are those of a valid block, and then with their values. */
  lemma LoadedByWord(mem: seq<int>, base: int)
    requires IsUint32(base)
    ensures Loaded(mem, base).0 <==> base % 4 == 0 && BlockValid(mem, base / 4)
    ensures Loaded(mem, base).0 ==> BlockHolds(Loaded(mem, base).1, mem, base / 4)
  {
    var w := base / 4;
    if base % 4 == 0 && w + 10 <= |mem| {
      var raw := mem[w..w + 10];
      assert NonNegative(raw) <==> forall i :: w <= i < w + 10 ==> 0 <= mem[i] < 0x8000_0000 by {
        if NonNegative(raw) {
          forall i | w <= i < w + 10 ensures 0 <= mem[i] < 0x8000_0000 { assert raw[i - w] == mem[i]; }
        }
      }
    }
  }

  /** Storing, word by word. */
  lemma StoredByWord(d: Descriptor, mem: seq<int>, base: int)
    requires d.Words() && IsUint32(base) && base % 4 == 0
    ensures base / 4 + 10 <= |mem| ==> BlockHolds(d, Overlaid(mem, base / 4, Encode(d)), base / 4)
  {
  }
}
