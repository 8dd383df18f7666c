/** The strided copy engine between DRAM and the scratch buffers (src/maps-sim/src/npu/dma.cpp). */
module Dma {
  import opened Words
  import opened RowMajor
  import opened Storage

  datatype DmaState = IDLE | BUSY | DONE | ERROR
  datatype DmaError = NONE | INVALID_PARAM | OUT_OF_RANGE | NULL_PTR | NOT_READY
  /** `OTHER_DIRECTION` stands for the values of the source's enumeration outside its two names. */
  datatype Direction = DRAM_TO_BUFFER | BUFFER_TO_DRAM | OTHER_DIRECTION

  /** `dramBase` is a byte address; everything else counts words. */
  datatype DmaRequest = DmaRequest(direction: Direction, dramBase: int, bufferBase: int, length: int, rows: int,
                                   srcStride: int, dstStride: int)
  {
    predicate Words()
    {
      && IsUint32(dramBase) && IsUint32(bufferBase) && IsUint32(length) && IsUint32(rows)
      && IsUint32(srcStride) && IsUint32(dstStride)
    }

    predicate WellFormed()
    {
      && length > 0 && rows > 0 && srcStride > 0 && dstStride > 0 && dramBase % WORD_BYTES == 0
      && direction != OTHER_DIRECTION
    }

    function SrcBase(): int
    {
      if direction == DRAM_TO_BUFFER then dramBase / WORD_BYTES else bufferBase
    }

    function DstBase(): int
    {
      if direction == DRAM_TO_BUFFER then bufferBase else dramBase / WORD_BYTES
    }

    /** The highest source and destination words of the two rectangles. */
    function SrcLast(): int { SrcBase() + Flat(rows - 1, length - 1, srcStride) }

    function DstLast(): int { DstBase() + Flat(rows - 1, length - 1, dstStride) }

    predicate Fits(dram: int, buffer: int)
    {
      if direction == DRAM_TO_BUFFER then SrcLast() < dram && DstLast() < buffer
      else SrcLast() < buffer && DstLast() < dram
    }
  }

  // ----- what a transfer leaves behind -----

  /** The highest of the first `rows` destination rows that covers offset d, or -1. */
  function CoveringRow(d: int, stride: int, length: int, rows: nat): int
  {
    if rows == 0 then -1
    else if 0 <= d - Flat(rows - 1, 0, stride) < length then rows - 1
    else CoveringRow(d, stride, length, rows - 1)
  }

  lemma {:induction false} CoveringRowIsHighest(d: int, stride: int, length: int, rows: nat)
    ensures var w := CoveringRow(d, stride, length, rows);
            && -1 <= w < rows
            && (w >= 0 ==> 0 <= d - Flat(w, 0, stride) < length)
            && forall r :: w < r < rows ==> !(0 <= d - Flat(r, 0, stride) < length)
  {
    hide Flat;
    if rows > 0 {
      CoveringRowIsHighest(d, stride, length, rows - 1);
    }
  }

  /** Word x of the destination after `rows` full rows and `cols` words of the next one. */
  ghost function Moved(req: DmaRequest, src: seq<int>, dst: seq<int>, rows: nat, cols: nat, x: int): int
    requires 0 <= x < |dst|
  {
    var d := x - req.DstBase();
    var here := d - Flat(rows, 0, req.dstStride);
    if 0 <= here < cols then Peek(src, req.SrcBase() + Flat(rows, here, req.srcStride))
    else
      var w := CoveringRow(d, req.dstStride, req.length, rows);
      if w < 0 then dst[x] else Peek(src, req.SrcBase() + Flat(w, d - Flat(w, 0, req.dstStride), req.srcStride))
  }

  /** The destination after the whole transfer: where rows overlap, the highest row wins. */
  ghost predicate Transferred(req: DmaRequest, src: seq<int>, dst: seq<int>, dst': seq<int>)
    requires req.rows >= 0
  {
    |dst'| == |dst| && forall x :: 0 <= x < |dst| ==> dst'[x] == Moved(req, src, dst, req.rows, 0, x)
  }

  lemma RowComplete(req: DmaRequest, src: seq<int>, dst: seq<int>, r: nat, x: int)
    requires 0 <= x < |dst| && req.length >= 0
    ensures Moved(req, src, dst, r, req.length, x) == Moved(req, src, dst, r + 1, 0, x)
  {
    hide Flat;
  }

  /** Rows that do not overlap each cover their own words. */
  lemma CoveringRowOfOwnWord(stride: int, length: int, rows: nat, r: int, c: int)
    requires 0 < length <= stride && 0 <= r < rows && 0 <= c < length
    ensures CoveringRow(Flat(r, c, stride), stride, length, rows) == r
  {
    hide Flat;
    hide CoveringRow;
    var d := Flat(r, c, stride);
    CoveringRowIsHighest(d, stride, length, rows);
    var w := CoveringRow(d, stride, length, rows);
    FlatNextRow(r, c, stride);
    if w >= 0 {
      FlatNextRow(w, d - Flat(w, 0, stride), stride);
      FlatDistinct(r, c, w, d - Flat(w, 0, stride), stride);
    }
  }

  /** Where rows do not overlap, word (r, c) of the source lands on word (r, c) of the destination. */
  lemma WordCopied(req: DmaRequest, src: seq<int>, dst: seq<int>, dst': seq<int>, r: int, c: int)
    requires req.rows >= 0 && 0 < req.length <= req.dstStride && Transferred(req, src, dst, dst')
    requires 0 <= req.DstBase() && req.DstLast() < |dst|
    requires 0 <= r < req.rows && 0 <= c < req.length
    ensures 0 <= req.DstBase() + Flat(r, c, req.dstStride) < |dst'|
    ensures dst'[req.DstBase() + Flat(r, c, req.dstStride)] == Peek(src, req.SrcBase() + Flat(r, c, req.srcStride))
  {
    hide Flat;
    hide CoveringRow;
    RectangleInside(req.rows, req.length, req.dstStride, r, c);
    CoveringRowOfOwnWord(req.dstStride, req.length, req.rows, r, c);
    CoveringRowIsHighest(Flat(r, c, req.dstStride), req.dstStride, req.length, req.rows);
    FlatNextRow(r, c, req.dstStride);
  }

  /** A transfer writes nothing outside its destination rectangle. */
  lemma WordKept(req: DmaRequest, src: seq<int>, dst: seq<int>, dst': seq<int>, x: int)
    requires req.rows >= 0 && Transferred(req, src, dst, dst') && 0 <= x < |dst|
    requires forall r, c :: 0 <= r < req.rows && 0 <= c < req.length ==> x != req.DstBase() + Flat(r, c, req.dstStride)
    ensures dst'[x] == dst[x]
  {
    hide Flat;
    hide CoveringRow;
    var d := x - req.DstBase();
    CoveringRowIsHighest(d, req.dstStride, req.length, req.rows);
    var w := CoveringRow(d, req.dstStride, req.length, req.rows);
    FlatNextRow(w, d - Flat(w, 0, req.dstStride), req.dstStride);
  }

  /** Every word of a rectangle lies between its first and its last. */
  lemma RectangleInside(rows: int, length: int, stride: int, r: int, c: int)
    requires 0 <= r < rows && 0 <= c < length && 0 <= stride
    ensures 0 <= Flat(r, c, stride) <= Flat(rows - 1, length - 1, stride)
  {
    hide Flat;
    FlatMonotone(0, r, c, stride);
    FlatMonotone(r, rows - 1, c, stride);
    FlatNextRow(rows - 1, c, stride);
    FlatNextRow(rows - 1, length - 1, stride);
  }

  /** The 32-bit addresses of word (r, c) are exact, and no higher than those of the last word. */
  lemma AddressesExact(req: DmaRequest, r: int, c: int)
    requires req.Words() && req.WellFormed() && req.SrcLast() < TWO32 && req.DstLast() < TWO32
    requires 0 <= r < req.rows && 0 <= c < req.length
    ensures var from, to := req.SrcBase() + Flat(r, c, req.srcStride), req.DstBase() + Flat(r, c, req.dstStride);
            && 0 <= from <= req.SrcLast() && 0 <= to <= req.DstLast() && U32(from) == from && U32(to) == to
  {
    hide Flat;
    RectangleInside(req.rows, req.length, req.srcStride, r, c);
    RectangleInside(req.rows, req.length, req.dstStride, r, c);
  }

  /** Copying one more word of row `r`. */
  lemma OneWordMoved(req: DmaRequest, src: seq<int>, dst: seq<int>, r: nat, c: nat, x: int)
    requires 0 <= x < |dst|
    ensures Moved(req, src, dst, r, c + 1, x)
         == if x == req.DstBase() + Flat(r, c, req.dstStride) then Peek(src, req.SrcBase() + Flat(r, c, req.srcStride))
            else Moved(req, src, dst, r, c, x)
  {
    hide Flat;
    hide CoveringRow;
    FlatNextRow(r, c, req.dstStride);
  }

  class DmaEngine {
    var buffer: Buffer?
    var memory: Memory?
    var dramSize: int
    var currentReq: DmaRequest
    var hasRequest: bool
    var state: DmaState
    var error: DmaError

    /** A busy engine holds a request that was accepted; rebinding may have changed its ends since. */
    ghost predicate Valid()
      reads this
    {
      && (memory != null ==> memory.Valid() && dramSize == memory.data.Length)
      && (state == BUSY ==>
        && hasRequest && buffer != null && memory != null && buffer.data != memory.data
        && currentReq.Words() && currentReq.WellFormed()
        && currentReq.SrcLast() < TWO32 && currentReq.DstLast() < TWO32)
    }

    constructor ()
      ensures Valid() && buffer == null && memory == null && state == IDLE && error == NONE && !hasRequest
    {
      buffer, memory, dramSize := null, null, 0;
      currentReq := DmaRequest(DRAM_TO_BUFFER, 0, 0, 0, 0, 0, 0);
      hasRequest, state, error := false, IDLE, NONE;
    }

    method Reset()
      requires Valid()
      modifies this
      ensures Valid() && state == IDLE && error == NONE && !hasRequest
      ensures buffer == old(buffer) && memory == old(memory)
    {
      hasRequest := false;
      currentReq := DmaRequest(DRAM_TO_BUFFER, 0, 0, 0, 0, 0, 0);
      state, error := IDLE, NONE;
    }

    method BindMemory(mem: Memory?)
      requires Valid() && (mem != null ==> mem.Valid() && (buffer != null ==> buffer.data != mem.data))
      modifies this
      ensures Valid() && buffer == old(buffer) && hasRequest == old(hasRequest) && currentReq == old(currentReq)
      ensures memory == if mem == null then old(memory) else mem
      ensures (state, error) == if mem == null then (ERROR, NULL_PTR)
                                else if old(state) == BUSY then (BUSY, old(error)) else (IDLE, NONE)
    {
      if mem == null {
        state, error := ERROR, NULL_PTR;
        return;
      }
      memory := mem;
      dramSize := mem.data.Length;
      if state != BUSY { state, error := IDLE, NONE; }
    }

    method BindBuffer(buf: Buffer?)
      requires Valid() && (buf != null && memory != null ==> buf.data != memory.data)
      modifies this
      ensures Valid() && memory == old(memory) && hasRequest == old(hasRequest) && currentReq == old(currentReq)
      ensures buffer == if buf == null then old(buffer) else buf
      ensures (state, error) == if buf == null then (ERROR, NULL_PTR)
                                else if old(state) == BUSY then (BUSY, old(error)) else (IDLE, NONE)
    {
      if buf == null {
        state, error := ERROR, NULL_PTR;
        return;
      }
      buffer := buf;
      if state != BUSY { state, error := IDLE, NONE; }
    }

    /** Accepts a request exactly when both of its rectangles fit; the 64-bit sums it compares never wrap. */
    method Submit(req: DmaRequest) returns (ok: bool)
      requires Valid() && req.Words() && (buffer != null && memory != null ==> buffer.data != memory.data)
      requires buffer != null ==> buffer.data.Length < TWO32
      modifies this
      ensures Valid() && buffer == old(buffer) && memory == old(memory)
      ensures ok <==> old(state) != BUSY && buffer != null && memory != null && req.WellFormed()
                      && req.Fits(memory.data.Length, buffer.data.Length)
      ensures ok ==> state == BUSY && error == NONE && currentReq == req && hasRequest
      ensures !ok ==> state == ERROR && currentReq == old(currentReq) && hasRequest == old(hasRequest)
      ensures !ok ==> error == if old(state) == BUSY then NOT_READY else if buffer == null || memory == null then NULL_PTR
                               else if !req.WellFormed() then INVALID_PARAM else OUT_OF_RANGE
    {
      if state == BUSY {
        state, error := ERROR, NOT_READY;
        return false;
      }
      if buffer == null || memory == null {
        state, error := ERROR, NULL_PTR;
        return false;
      }
      if req.length == 0 || req.rows == 0 || req.srcStride == 0 || req.dstStride == 0 || req.dramBase % WORD_BYTES != 0 {
        state, error := ERROR, INVALID_PARAM;
        return false;
      }
      var dramBaseWord := req.dramBase / WORD_BYTES;
      if req.direction == DRAM_TO_BUFFER {
        var srcLast := LastWord64(dramBaseWord, req.rows, req.srcStride, req.length);
        var dstLast := LastWord64(req.bufferBase, req.rows, req.dstStride, req.length);
        if srcLast >= dramSize || dstLast >= buffer.data.Length {
          state, error := ERROR, OUT_OF_RANGE;
          return false;
        }
      } else if req.direction == BUFFER_TO_DRAM {
        var srcLast := LastWord64(req.bufferBase, req.rows, req.srcStride, req.length);
        var dstLast := LastWord64(dramBaseWord, req.rows, req.dstStride, req.length);
        if srcLast >= buffer.data.Length || dstLast >= dramSize {
          state, error := ERROR, OUT_OF_RANGE;
          return false;
        }
      } else {
        state, error := ERROR, INVALID_PARAM;
        return false;
      }
      currentReq, hasRequest, state, error := req, true, BUSY, NONE;
      return true;
    }

    ghost function Source(): seq<int>
      requires buffer != null && memory != null
      reads this`buffer, this`memory, this`currentReq, buffer.data, memory.data
    {
      if currentReq.direction == DRAM_TO_BUFFER then memory.Contents() else buffer.Contents()
    }

    ghost function Destination(): seq<int>
      requires buffer != null && memory != null
      reads this`buffer, this`memory, this`currentReq, buffer.data, memory.data
    {
      if currentReq.direction == DRAM_TO_BUFFER then buffer.Contents() else memory.Contents()
    }

    ghost function Written(): set<object>
      requires Valid()
      reads this
    {
      if state != BUSY then {} else if currentReq.direction == DRAM_TO_BUFFER then {buffer.data} else {memory.data}
    }

    /** Runs an accepted request; it faults only if rebinding has shrunk an end since the request was accepted. */
    method RunSync() returns (ok: bool)
      requires Valid()
      modifies this, Written()
      ensures Valid() && buffer == old(buffer) && memory == old(memory) && currentReq == old(currentReq)
      ensures ok <==> old(state) == BUSY && currentReq.Fits(memory.data.Length, buffer.data.Length)
      ensures ok ==> state == DONE && error == NONE && !hasRequest
      ensures ok ==> Source() == old(Source()) && Transferred(currentReq, old(Source()), old(Destination()), Destination())
      ensures !ok ==> state == ERROR && error == if old(state) == BUSY then OUT_OF_RANGE else NOT_READY
      ensures !ok && old(state) == BUSY ==>
                Source() == old(Source())
                && exists r: nat, c: nat :: FirstFault(r, c) && PartlyMoved(old(Source()), old(Destination()), r, c)
    {
      hide Moved;
      hide Flat;
      hide CoveringRow;
      hide FirstFault;
      hide PartlyMoved;
      hide Transferred;
      hide DmaRequest.Fits;
      hide Source;
      hide Destination;
      if !hasRequest || state != BUSY {
        state, error := ERROR, NOT_READY;
        return false;
      }
      ok := CopyRows(Source(), Destination());
      if ok {
        hasRequest, state, error := false, DONE, NONE;
      } else {
        ghost var r: nat, c: nat :| FirstFault(r, c) && PartlyMoved(old(Source()), old(Destination()), r, c);
        state, error := ERROR, OUT_OF_RANGE;
        assert FirstFault(r, c) && PartlyMoved(old(Source()), old(Destination()), r, c);
      }
    }

    /** The outer loop. */
    method CopyRows(ghost src: seq<int>, ghost dst: seq<int>) returns (ok: bool)
      requires Valid() && state == BUSY && Source() == src && Destination() == dst
      modifies Written()
      ensures Source() == src && (ok <==> currentReq.Fits(memory.data.Length, buffer.data.Length))
      ensures ok ==> Transferred(currentReq, src, dst, Destination())
      ensures !ok ==> exists r: nat, c: nat :: FirstFault(r, c) && PartlyMoved(src, dst, r, c)
    {
      hide Moved;
      hide Flat;
      hide CoveringRow;
      hide Reaches;
      hide RowFault;
      hide PartlyMoved;
      hide Transferred;
      hide DmaRequest.Fits;
      hide Source;
      hide Destination;
      PartlyMovedStart();
      for r := 0 to currentReq.rows
        invariant Source() == src && PartlyMoved(src, dst, r, 0)
        invariant forall r', c' :: 0 <= r' < r && 0 <= c' < currentReq.length ==> Reaches(r', c')
      {
        ok := CopyRow(r, src, dst);
        if !ok {
          ghost var c :| 0 <= c < currentReq.length && RowFault(r, c) && PartlyMoved(src, dst, r, c);
          assert FirstFault(r, c);
          return;
        }
      }
      LastWordFitsAll();
      PartlyMovedEnd(src, dst);
      return true;
    }

    /** A request all of whose words are inside both ends fits. */
    lemma LastWordFitsAll()
      requires Valid() && state == BUSY && Reaches(currentReq.rows - 1, currentReq.length - 1)
      ensures currentReq.Fits(memory.data.Length, buffer.data.Length)
    {
      hide Flat;
    }

    lemma PartlyMovedStart()
      requires Valid() && state == BUSY
      ensures PartlyMoved(Source(), Destination(), 0, 0)
    {
      NothingMoved(currentReq, Source(), Destination());
    }

    lemma PartlyMovedEnd(src: seq<int>, dst: seq<int>)
      requires Valid() && state == BUSY && PartlyMoved(src, dst, currentReq.rows, 0)
      ensures Transferred(currentReq, src, dst, Destination())
    {
      hide Moved;
    }

    /** The destination after r full rows and c words of the next. */
    ghost predicate PartlyMoved(src: seq<int>, dst: seq<int>, r: nat, c: nat)
      requires buffer != null && memory != null
      reads this`buffer, this`memory, this`currentReq, buffer.data, memory.data
    {
      |Destination()| == |dst| && forall x :: 0 <= x < |dst| ==> Destination()[x] == Moved(currentReq, src, dst, r, c, x)
    }

    /** The inner loop. */
    method CopyRow(r: int, ghost src: seq<int>, ghost dst: seq<int>) returns (ok: bool)
      requires Valid() && state == BUSY && 0 <= r < currentReq.rows
      requires Source() == src && PartlyMoved(src, dst, r, 0)
      modifies Written()
      ensures Source() == src
      ensures ok ==> PartlyMoved(src, dst, r + 1, 0) && forall c :: 0 <= c < currentReq.length ==> Reaches(r, c)
      ensures !ok ==> !currentReq.Fits(memory.data.Length, buffer.data.Length)
      ensures !ok ==> exists c :: 0 <= c < currentReq.length && RowFault(r, c) && PartlyMoved(src, dst, r, c)
    {
      hide Moved;
      hide Flat;
      for c := 0 to currentReq.length
        invariant Source() == src && PartlyMoved(src, dst, r, c)
        invariant forall c' :: 0 <= c' < c ==> Reaches(r, c')
      {
        var copied := CopyWord(r, c);
        if !copied {
          assert RowFault(r, c) && PartlyMoved(src, dst, r, c);
          return false;
        }
        RectangleInside(currentReq.rows, currentReq.length, currentReq.srcStride, r, c);
        forall x | 0 <= x < |dst| ensures Destination()[x] == Moved(currentReq, src, dst, r, c + 1, x) {
          OneWordMoved(currentReq, src, dst, r, c, x);
        }
      }
      forall x | 0 <= x < |dst| ensures Destination()[x] == Moved(currentReq, src, dst, r + 1, 0, x) {
        RowComplete(currentReq, src, dst, r, x);
      }
      return true;
    }

    /** Word (r, c) of the request is inside both of its ends. */
    ghost predicate Reaches(r: int, c: int)
      requires buffer != null && memory != null
      reads this`buffer, this`memory, this`currentReq
    {
      var from := currentReq.SrcBase() + Flat(r, c, currentReq.srcStride);
      var to := currentReq.DstBase() + Flat(r, c, currentReq.dstStride);
      if currentReq.direction == DRAM_TO_BUFFER then 0 <= from < memory.data.Length && 0 <= to < buffer.data.Length
      else 0 <= from < buffer.data.Length && 0 <= to < memory.data.Length
    }

    /** Word (r, c) is the first of its row that is not. */
    ghost predicate RowFault(r: int, c: int)
      requires buffer != null && memory != null
      reads this`buffer, this`memory, this`currentReq
    {
      !Reaches(r, c) && forall c' :: 0 <= c' < c ==> Reaches(r, c')
    }

    /** Word (r, c) is the first, in the order of the loops, that is not. */
    ghost predicate FirstFault(r: nat, c: nat)
      requires buffer != null && memory != null
      reads this`buffer, this`memory, this`currentReq
    {
      && r < currentReq.rows && c < currentReq.length && RowFault(r, c)
      && forall r', c' :: 0 <= r' < r && 0 <= c' < currentReq.length ==> Reaches(r', c')
    }

    /** One word of the double loop, its addresses computed in 32 bits. */
    method CopyWord(r: int, c: int) returns (ok: bool)
      requires Valid() && state == BUSY && 0 <= r < currentReq.rows && 0 <= c < currentReq.length
      modifies Written()
      ensures ok <==> Reaches(r, c)
      ensures Source() == old(Source()) && (!ok ==> Destination() == old(Destination()))
      ensures ok ==> Destination() == old(Destination())
        [currentReq.DstBase() + Flat(r, c, currentReq.dstStride) :=
          Source()[currentReq.SrcBase() + Flat(r, c, currentReq.srcStride)]]
      ensures !ok ==> !currentReq.Fits(memory.data.Length, buffer.data.Length)
    {
      hide Flat;
      if currentReq.direction == DRAM_TO_BUFFER { ok := FetchWord(r, c); } else { ok := StoreWord(r, c); }
    }

    method FetchWord(r: int, c: int) returns (ok: bool)
      requires Valid() && state == BUSY && 0 <= r < currentReq.rows && 0 <= c < currentReq.length
      requires currentReq.direction == DRAM_TO_BUFFER
      modifies Written()
      ensures ok <==> Reaches(r, c)
      ensures Source() == old(Source()) && (!ok ==> Destination() == old(Destination()))
      ensures ok ==> Destination() == old(Destination())
        [currentReq.DstBase() + Flat(r, c, currentReq.dstStride) :=
          Source()[currentReq.SrcBase() + Flat(r, c, currentReq.srcStride)]]
      ensures !ok ==> !currentReq.Fits(memory.data.Length, buffer.data.Length)
    {
      hide Flat;
      hide U32;
      hide DmaRequest.SrcLast;
      hide DmaRequest.DstLast;
      var req := currentReq;
      AddressesExact(req, r, c);
      var value;
      ok, value := memory.Read(U32(req.dramBase / WORD_BYTES + Flat(r, c, req.srcStride)));
      if ok { ok := buffer.Write(U32(req.bufferBase + Flat(r, c, req.dstStride)), value); }
    }

    method StoreWord(r: int, c: int) returns (ok: bool)
      requires Valid() && state == BUSY && 0 <= r < currentReq.rows && 0 <= c < currentReq.length
      requires currentReq.direction == BUFFER_TO_DRAM
      modifies Written()
      ensures ok <==> Reaches(r, c)
      ensures Source() == old(Source()) && (!ok ==> Destination() == old(Destination()))
      ensures ok ==> Destination() == old(Destination())
        [currentReq.DstBase() + Flat(r, c, currentReq.dstStride) :=
          Source()[currentReq.SrcBase() + Flat(r, c, currentReq.srcStride)]]
      ensures !ok ==> !currentReq.Fits(memory.data.Length, buffer.data.Length)
    {
      hide Flat;
      hide U32;
      hide DmaRequest.SrcLast;
      hide DmaRequest.DstLast;
      var req := currentReq;
      AddressesExact(req, r, c);
      var value;
      ok, value := buffer.Read(U32(req.bufferBase + Flat(r, c, req.srcStride)));
      if ok { ok := memory.Write(U32(req.dramBase / WORD_BYTES + Flat(r, c, req.dstStride)), value); }
    }
  }

  lemma NothingMoved(req: DmaRequest, src: seq<int>, dst: seq<int>)
    ensures forall x :: 0 <= x < |dst| ==> Moved(req, src, dst, 0, 0, x) == dst[x]
  {
  }

  /** The bound check's sum, in 64 bits as the source forms it: exact for all 32-bit operands. */
  function LastWord64(base: int, rows: int, stride: int, length: int): (last: int)
    requires IsUint32(base) && IsUint32(rows) && IsUint32(stride) && IsUint32(length) && rows > 0 && length > 0
    ensures last == base + Flat(rows - 1, length - 1, stride)
  {
    LastWordFits(base, rows, stride, length);
    U64(U64(base + U64((rows - 1) * stride)) + (length - 1))
  }

  lemma LastWordFits(base: int, rows: int, stride: int, length: int)
    requires IsUint32(base) && IsUint32(rows) && IsUint32(stride) && IsUint32(length) && rows > 0 && length > 0
    ensures 0 <= (rows - 1) * stride && base + (rows - 1) * stride + (length - 1) < TWO64
  {
    MultiplesGrow(rows - 1, TWO32 - 2, stride);
  }
}
