/** A word memory seen as one little-endian array of bytes. */
module ByteView {
  import opened Words

  predicate IsByte(x: int)
  {
    0 <= x < 256
  }

  /** 256 to the power of a lane number. */
  function Scale(lane: int): int
  {
    if lane == 0 then 1 else if lane == 1 then 0x100 else if lane == 2 then 0x1_0000 else 0x100_0000
  }

  /** Byte `lane` of a 32-bit word. */
  function Lane(word: int, lane: int): (b: int)
    ensures IsByte(b)
  {
    word / Scale(lane) % 256
  }

  /** The word with byte `lane` replaced. */
  function WithLane(word: int, lane: int, b: int): int
  {
    word + (b - Lane(word, lane)) * Scale(lane)
  }

  /** The byte at a byte address; words are signed, their bits are not. */
  function ByteAt(mem: seq<int>, addr: int): (b: int)
    requires 0 <= addr < 4 * |mem|
    ensures IsByte(b)
  {
    Lane(U32(mem[addr / 4]), addr % 4)
  }

  /** The whole byte array. */
  function Bytes(mem: seq<int>): (r: seq<int>)
    ensures |r| == 4 * |mem| && forall a :: 0 <= a < |r| ==> r[a] == ByteAt(mem, a)
  {
    seq(4 * |mem|, a requires 0 <= a < 4 * |mem| => ByteAt(mem, a))
  }

  /** A word is its four bytes. */
  lemma WordIsBytes(word: int)
    requires IsUint32(word)
    ensures word == Lane(word, 0) + 0x100 * Lane(word, 1) + 0x1_0000 * Lane(word, 2) + 0x100_0000 * Lane(word, 3)
  {
    Quotients(word);
    LanesAreRemainders(word);
    hide Lane;
  }

  lemma Quotients(word: int)
    requires IsUint32(word)
    ensures word == 0x100 * (word / 0x100) + word % 0x100
    ensures word / 0x100 == 0x100 * (word / 0x1_0000) + (word / 0x100) % 0x100
    ensures word / 0x1_0000 == 0x100 * (word / 0x100_0000) + (word / 0x1_0000) % 0x100
    ensures 0 <= word / 0x100_0000 < 0x100
  {
  }

  lemma LanesAreRemainders(word: int)
    requires IsUint32(word)
    ensures Lane(word, 0) == word % 0x100 && Lane(word, 1) == (word / 0x100) % 0x100
    ensures Lane(word, 2) == (word / 0x1_0000) % 0x100 && Lane(word, 3) == word / 0x100_0000
  {
  }

  /** Four bytes make one word, with those bytes. */
  lemma BytesMakeWord(b0: int, b1: int, b2: int, b3: int)
    requires IsByte(b0) && IsByte(b1) && IsByte(b2) && IsByte(b3)
    ensures var word := b0 + 0x100 * b1 + 0x1_0000 * b2 + 0x100_0000 * b3;
            IsUint32(word) && Lane(word, 0) == b0 && Lane(word, 1) == b1 && Lane(word, 2) == b2 && Lane(word, 3) == b3
  {
    var word := b0 + 0x100 * b1 + 0x1_0000 * b2 + 0x100_0000 * b3;
    assert word / 0x100 == b1 + 0x100 * b2 + 0x1_0000 * b3;
    assert word / 0x1_0000 == b2 + 0x100 * b3;
    assert word / 0x100_0000 == b3;
  }

  /** Replacing one lane changes that byte alone. */
  lemma WithLaneIsLocal(word: int, lane: int, b: int)
    requires IsUint32(word) && 0 <= lane < 4 && IsByte(b)
    ensures IsUint32(WithLane(word, lane, b))
    ensures forall l :: 0 <= l < 4 ==> Lane(WithLane(word, lane, b), l) == if l == lane then b else Lane(word, l)
  {
    WordIsBytes(word);
    var b0, b1, b2, b3 := Lane(word, 0), Lane(word, 1), Lane(word, 2), Lane(word, 3);
    hide Lane;
    if lane == 0 {
      assert WithLane(word, 0, b) == word + (b - b0);
      BytesMakeWord(b, b1, b2, b3);
    } else if lane == 1 {
      assert WithLane(word, 1, b) == word + (b - b1) * 0x100;
      BytesMakeWord(b0, b, b2, b3);
    } else if lane == 2 {
      assert WithLane(word, 2, b) == word + (b - b2) * 0x1_0000;
      BytesMakeWord(b0, b1, b, b3);
    } else {
      assert WithLane(word, 3, b) == word + (b - b3) * 0x100_0000;
      BytesMakeWord(b0, b1, b2, b);
    }
  }

  /** The signed reading of a word keeps its bits. */
  lemma SignedKeepsBits(word: int)
    requires IsUint32(word)
    ensures U32(AsInt32(word)) == word
  {
  }

  /** Writing one lane of one word is writing one byte of the array. */
  lemma ByteWritten(mem: seq<int>, addr: int, b: int)
    requires 0 <= addr < 4 * |mem| && IsByte(b)
    ensures var word := WithLane(U32(mem[addr / 4]), addr % 4, b);
            Bytes(mem[addr / 4 := AsInt32(word)]) == Bytes(mem)[addr := b]
  {
    var w := addr / 4;
    var word := WithLane(U32(mem[w]), addr % 4, b);
    var mem' := mem[w := AsInt32(word)];
    WithLaneIsLocal(U32(mem[w]), addr % 4, b);
    SignedKeepsBits(word);
    hide Lane;
    hide WithLane;
    forall a | 0 <= a < 4 * |mem| ensures Bytes(mem')[a] == Bytes(mem)[addr := b][a] {
      if a / 4 == w {
        assert a == 4 * w + a % 4 && addr == 4 * w + addr % 4;
      }
    }
  }

  lemma LanesOfWord(addr: int)
    requires addr % 4 == 0
    ensures (addr + 1) / 4 == (addr + 2) / 4 == (addr + 3) / 4 == addr / 4
    ensures (addr + 1) % 4 == 1 && (addr + 2) % 4 == 2 && (addr + 3) % 4 == 3
  {
  }

  /** Writing an aligned word is writing its four bytes. */
  lemma WordWritten(mem: seq<int>, addr: int, word: int)
    requires 0 <= addr < 4 * |mem| && addr % 4 == 0 && IsUint32(word)
    ensures Bytes(mem[addr / 4 := AsInt32(word)])
         == Bytes(mem)[addr := Lane(word, 0)][addr + 1 := Lane(word, 1)][addr + 2 := Lane(word, 2)][addr + 3 := Lane(word, 3)]
  {
    SignedKeepsBits(word);
    hide Lane;
    var w := addr / 4;
    var mem' := mem[w := AsInt32(word)];
    forall a | 0 <= a < 4 * |mem| && a / 4 != w ensures Bytes(mem')[a] == Bytes(mem)[a] {}
    LanesOfWord(addr);
  }

  /** An aligned word read is its four bytes. */
  lemma WordRead(mem: seq<int>, addr: int)
    requires 0 <= addr < 4 * |mem| && addr % 4 == 0
    ensures U32(mem[addr / 4]) == Bytes(mem)[addr] + 0x100 * Bytes(mem)[addr + 1] + 0x1_0000 * Bytes(mem)[addr + 2]
                                  + 0x100_0000 * Bytes(mem)[addr + 3]
  {
    WordIsBytes(U32(mem[addr / 4]));
    hide Lane;
    LanesOfWord(addr);
  }
}
