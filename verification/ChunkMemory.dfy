/** The chunk allocator of libarchfpga (my_chunk_malloc, free_chunk_memory, insert_in_vptr_list). */
module ChunkMemory {
  import opened Seqs

  const CHUNK_SIZE := 32768
  const FRAGMENT_THRESHOLD := 100
  /** sizeof(long) */
  const ALIGN := 8

  /** malloc returns the start of a new block, aligned for any type. */
  datatype Pointer = Null | At(block: nat, off: nat)

  /** The blocks malloc has returned, by number: their sizes, and how often each was freed. */
  datatype Blocks = Blocks(sizes: seq<nat>, frees: seq<nat>)

  /** t_chunk: the list of blocks, newest first, and what is left of the open one. */
  datatype Chunk = Chunk(list: seq<nat>, memAvail: int, next: Pointer)

  /** Memory a caller holds. */
  datatype Piece = Piece(block: nat, off: nat, size: nat)

  const EMPTY := Chunk([], 0, Null)

  function Aligned(size: nat): nat {
    if size % ALIGN == 0 then size else size + ALIGN - size % ALIGN
  }

  lemma AlignedIs(size: nat)
    ensures Aligned(size) % ALIGN == 0 && size <= Aligned(size) < size + ALIGN
  {
  }

  function WithBlock(m: Blocks, size: nat): Blocks { Blocks(m.sizes + [size], m.frees + [0]) }

  /** Advance in the open block. */
  function Carve(ch: Chunk, size: nat): Chunk {
    match ch.next
    case Null => ch
    case At(b, off) => ch.(memAvail := ch.memAvail - Aligned(size), next := At(b, off + Aligned(size)))
  }

  datatype Answer = Answer(blocks: Blocks, chunk: Chunk, ptr: Pointer)

  /** my_chunk_malloc */
  function ChunkMalloc(m: Blocks, ch: Chunk, size: nat): Answer {
    var b := |m.sizes|;
    if ch.memAvail < size && (size > CHUNK_SIZE || ch.memAvail >= FRAGMENT_THRESHOLD) then
      Answer(WithBlock(m, size), ch.(list := [b] + ch.list), At(b, 0))
    else
      var open := if ch.memAvail < size then Chunk([b] + ch.list, CHUNK_SIZE, At(b, 0)) else ch;
      var m' := if ch.memAvail < size then WithBlock(m, CHUNK_SIZE) else m;
      Answer(m', Carve(open, size), open.next)
  }

  // ----- the invariant

  ghost predicate PieceOk(m: Blocks, ch: Chunk, p: Piece) {
    && p.size > 0 && p.block in ch.list && p.block < |m.sizes|
    && p.off % ALIGN == 0 && p.off + p.size <= m.sizes[p.block]
    && (ch.next.At? && ch.next.block == p.block ==> p.off + p.size <= ch.next.off)
  }

  predicate Apart(p: Piece, q: Piece) {
    p.block != q.block || p.off + p.size <= q.off || q.off + q.size <= p.off
  }

  ghost predicate Disjoint(given: seq<Piece>) {
    forall i, j :: 0 <= i < j < |given| ==> Apart(given[i], given[j])
  }

  /** Each block ever allocated is on the list once and not freed, or off the list and freed once. */
  ghost predicate Accounted(m: Blocks, list: seq<nat>) {
    && |m.frees| == |m.sizes| && Distinct(list) && (forall b: nat :: b in list ==> b < |m.sizes|)
    && (forall b: nat {:trigger m.frees[b]} :: b < |m.sizes| ==> m.frees[b] == if b in list then 0 else 1)
  }

  ghost predicate Inv(m: Blocks, ch: Chunk, given: seq<Piece>) {
    && Accounted(m, ch.list)
    && ch.memAvail >= 0 && ch.memAvail % ALIGN == 0
    && (ch.next.Null? ==> ch.memAvail == 0)
    && (ch.next.At? ==> ch.next.block in ch.list && ch.next.block < |m.sizes| && m.sizes[ch.next.block] == CHUNK_SIZE
                        && ch.next.off % ALIGN == 0 && ch.next.off + ch.memAvail == CHUNK_SIZE)
    && (forall i :: 0 <= i < |given| ==> PieceOk(m, ch, given[i]))
    && Disjoint(given)
  }

  lemma StartsEmpty()
    ensures Inv(Blocks([], []), EMPTY, [])
  {
  }

  /** A new block goes to the head of the list. */
  lemma MallocAccounted(m: Blocks, list: seq<nat>, size: nat)
    requires Accounted(m, list)
    ensures Accounted(WithBlock(m, size), [|m.sizes|] + list)
  {
    hide Distinct;
    ConsDistinct(|m.sizes|, list);
    forall x: nat | x < |m.sizes| + 1 ensures WithBlock(m, size).frees[x] == if x in [|m.sizes|] + list then 0 else 1 {
      if x < |m.sizes| {
        assert WithBlock(m, size).frees[x] == m.frees[x];
      }
    }
  }

  lemma ConsDistinct(b: nat, list: seq<nat>)
    requires Distinct(list) && b !in list
    ensures Distinct([b] + list)
  {
    assert forall i :: 0 <= i < |list| ==> ([b] + list)[i + 1] == list[i] && list[i] in list;
  }

  /** The pieces given out stay what they were when a block is added or space is carved off. */
  lemma PiecesStay(m: Blocks, ch: Chunk, given: seq<Piece>, m': Blocks, ch': Chunk)
    requires Inv(m, ch, given) && |m.sizes| <= |m'.sizes| && m'.sizes[..|m.sizes|] == m.sizes
    requires forall b :: b in ch.list ==> b in ch'.list
    requires ch'.next.At? ==>
      (ch'.next.block >= |m.sizes|) || (ch.next.At? && ch'.next.block == ch.next.block && ch'.next.off >= ch.next.off)
    ensures forall i :: 0 <= i < |given| ==> PieceOk(m', ch', given[i])
  {
    forall i | 0 <= i < |given| ensures PieceOk(m', ch', given[i]) {
      assert PieceOk(m, ch, given[i]);
      assert m'.sizes[..|m.sizes|][given[i].block] == m.sizes[given[i].block];
    }
  }

  lemma AddPiece(given: seq<Piece>, p: Piece)
    requires Disjoint(given) && forall i :: 0 <= i < |given| ==> Apart(given[i], p)
    ensures Disjoint(given + [p])
  {
  }

  /** A request larger than what is left, served by a block of its own. */
  lemma OwnBlock(m: Blocks, ch: Chunk, given: seq<Piece>, size: nat)
    requires Inv(m, ch, given) && size > 0
    ensures Inv(WithBlock(m, size), ch.(list := [|m.sizes|] + ch.list), given + [Piece(|m.sizes|, 0, size)])
  {
    var b: nat := |m.sizes|;
    var m', ch' := WithBlock(m, size), ch.(list := [b] + ch.list);
    MallocAccounted(m, ch.list, size);
    PiecesStay(m, ch, given, m', ch');
    assert PieceOk(m', ch', Piece(b, 0, size));
    assert forall i :: 0 <= i < |given| ==> PieceOk(m, ch, given[i]);
    AddPiece(given, Piece(b, 0, size));
  }

  /** A request that fits the open block. */
  lemma FromOpen(m: Blocks, ch: Chunk, given: seq<Piece>, size: nat)
    requires Inv(m, ch, given) && 0 < size <= ch.memAvail
    ensures ch.next.At? && Inv(m, Carve(ch, size), given + [Piece(ch.next.block, ch.next.off, size)])
  {
    AlignedIs(size);
    var ch' := Carve(ch, size);
    var p := Piece(ch.next.block, ch.next.off, size);
    Fits(ch.memAvail, size);
    PiecesStay(m, ch, given, m, ch');
    assert PieceOk(m, ch', p);
    forall i | 0 <= i < |given| ensures Apart(given[i], p) {
      assert PieceOk(m, ch, given[i]);
    }
    AddPiece(given, p);
  }

  /** Rounding up stays within what is left, because what is left is a multiple of the alignment. */
  lemma Fits(avail: int, size: nat)
    requires avail % ALIGN == 0 && size <= avail
    ensures Aligned(size) <= avail && (avail - Aligned(size)) % ALIGN == 0
  {
  }

  /** A new chunk is opened. */
  lemma OpenBlock(m: Blocks, ch: Chunk, given: seq<Piece>)
    requires Inv(m, ch, given)
    ensures Inv(WithBlock(m, CHUNK_SIZE), Chunk([|m.sizes|] + ch.list, CHUNK_SIZE, At(|m.sizes|, 0)), given)
  {
    MallocAccounted(m, ch.list, CHUNK_SIZE);
    PiecesStay(m, ch, given, WithBlock(m, CHUNK_SIZE), Chunk([|m.sizes|] + ch.list, CHUNK_SIZE, At(|m.sizes|, 0)));
  }

  function PieceAt(ptr: Pointer, size: nat): Piece {
    match ptr
    case Null => Piece(0, 0, 0)
    case At(b, off) => Piece(b, off, size)
  }

  /** One request: the result is aligned, lies in a block of the list and overlaps nothing given before,
      and what is left never becomes negative. */
  lemma MallocKeeps(m: Blocks, ch: Chunk, given: seq<Piece>, size: nat)
    requires Inv(m, ch, given) && size > 0
    ensures var r := ChunkMalloc(m, ch, size);
      r.ptr.At? && Inv(r.blocks, r.chunk, given + [PieceAt(r.ptr, size)])
  {
    hide Inv;
    if ch.memAvail < size && (size > CHUNK_SIZE || ch.memAvail >= FRAGMENT_THRESHOLD) {
      OwnBlock(m, ch, given, size);
    } else if ch.memAvail < size {
      OpenBlock(m, ch, given);
      FromOpen(WithBlock(m, CHUNK_SIZE), Chunk([|m.sizes|] + ch.list, CHUNK_SIZE, At(|m.sizes|, 0)), given, size);
    } else {
      FromOpen(m, ch, given, size);
    }
  }

  // ----- whole runs

  /** The answers to a sequence of requests. */
  ghost function Serve(m: Blocks, ch: Chunk, given: seq<Piece>, sizes: seq<nat>): (Blocks, Chunk, seq<Piece>)
    decreases |sizes|
  {
    if sizes == [] then (m, ch, given)
    else
      var r := ChunkMalloc(m, ch, sizes[0]);
      Serve(r.blocks, r.chunk, given + [PieceAt(r.ptr, sizes[0])], sizes[1..])
  }

  lemma {:induction false} ServeKeeps(m: Blocks, ch: Chunk, given: seq<Piece>, sizes: seq<nat>)
    requires Inv(m, ch, given) && forall i :: 0 <= i < |sizes| ==> sizes[i] > 0
    ensures var (m', ch', given') := Serve(m, ch, given, sizes);
      Inv(m', ch', given') && |given'| == |given| + |sizes|
      && forall i :: 0 <= i < |given'| ==> given'[i].size == if i < |given| then given[i].size else sizes[i - |given|]
    decreases |sizes|
  {
    hide Inv;
    if sizes != [] {
      MallocKeeps(m, ch, given, sizes[0]);
      var r := ChunkMalloc(m, ch, sizes[0]);
      ServeKeeps(r.blocks, r.chunk, given + [PieceAt(r.ptr, sizes[0])], sizes[1..]);
    }
  }

  /** free_chunk_memory frees every block of the list in turn. */
  function FreeList(m: Blocks, list: seq<nat>): (r: Blocks)
    requires |m.frees| == |m.sizes| && forall b: nat :: b in list ==> b < |m.sizes|
    ensures r.sizes == m.sizes && |r.frees| == |m.frees|
    decreases |list|
  {
    if list == [] then m
    else
      assert list[0] in list && forall b :: b in list[1..] ==> b in list;
      FreeList(m.(frees := m.frees[list[0] := m.frees[list[0]] + 1]), list[1..])
  }

  lemma {:induction false} FreeListCounts(m: Blocks, list: seq<nat>, b: nat)
    requires |m.frees| == |m.sizes| && (forall x :: x in list ==> x < |m.sizes|) && b < |m.sizes|
    ensures FreeList(m, list).frees[b] == m.frees[b] + Count(list, b)
    decreases |list|
  {
    if list != [] {
      assert list[0] in list && forall x :: x in list[1..] ==> x in list;
      FreeListCounts(m.(frees := m.frees[list[0] := m.frees[list[0]] + 1]), list[1..], b);
    }
  }

  /** After any run of requests, freeing releases every block ever allocated exactly once. */
  lemma FreedExactlyOnce(m: Blocks, ch: Chunk, given: seq<Piece>)
    requires Inv(m, ch, given)
    ensures forall b: nat :: b < |m.sizes| ==> FreeList(m, ch.list).frees[b] == 1
    ensures Inv(FreeList(m, ch.list), EMPTY, [])
  {
    forall b: nat | b < |m.sizes| ensures FreeList(m, ch.list).frees[b] == 1 {
      FreeListCounts(m, ch.list, b);
      CountDistinct(ch.list, b);
    }
  }

  /** A piece a caller may use: aligned and inside its block. */
  predicate Usable(m: Blocks, p: Piece) {
    p.off % ALIGN == 0 && p.block < |m.sizes| && p.off + p.size <= m.sizes[p.block]
  }

  lemma InvIsSafe(m: Blocks, ch: Chunk, given: seq<Piece>)
    requires Inv(m, ch, given)
    ensures ch.memAvail >= 0 && Disjoint(given) && Accounted(m, ch.list)
    ensures forall i :: 0 <= i < |given| ==> Usable(m, given[i])
  {
    hide Accounted, Disjoint;
    forall i | 0 <= i < |given| ensures Usable(m, given[i]) {
      assert PieceOk(m, ch, given[i]);
    }
  }

  /** From an empty chunk, whatever is asked for: every answer is aligned and inside its block, no two
      overlap, and freeing then leaves no block unfreed and none freed twice. */
  lemma RunThenFree(sizes: seq<nat>)
    requires forall i :: 0 <= i < |sizes| ==> sizes[i] > 0
    ensures var (m, ch, given) := Serve(Blocks([], []), EMPTY, [], sizes);
      && |given| == |sizes| && ch.memAvail >= 0 && Disjoint(given) && Accounted(m, ch.list)
      && (forall i :: 0 <= i < |given| ==> given[i].size == sizes[i] && Usable(m, given[i]))
      && (forall b: nat :: b < |m.sizes| ==> FreeList(m, ch.list).frees[b] == 1)
  {
    hide Inv, Serve, Disjoint, Usable, FreeList;
    StartsEmpty();
    ServeKeeps(Blocks([], []), EMPTY, [], sizes);
    var (m, ch, given) := Serve(Blocks([], []), EMPTY, [], sizes);
    InvIsSafe(m, ch, given);
    FreedExactlyOnce(m, ch, given);
  }

  // ----- the imperative allocator

  class Heap {
    var blocks: Blocks

    constructor ()
      ensures blocks == Blocks([], [])
    {
      blocks := Blocks([], []);
    }

    method Malloc(size: nat) returns (ptr: Pointer)
      requires size > 0
      modifies this
      ensures blocks == WithBlock(old(blocks), size) && ptr == At(old(|blocks.sizes|), 0)
    {
      ptr := At(|blocks.sizes|, 0);
      blocks := Blocks(blocks.sizes + [size], blocks.frees + [0]);
    }

    method Free(b: nat)
      requires b < |blocks.frees|
      modifies this
      ensures blocks == old(blocks).(frees := old(blocks.frees)[b := old(blocks.frees[b]) + 1])
    {
      blocks := blocks.(frees := blocks.frees[b := blocks.frees[b] + 1]);
    }
  }

  class ChunkInfo {
    var list: seq<nat>
    var memAvail: int
    var next: Pointer

    function State(): Chunk
      reads this
    {
      Chunk(list, memAvail, next)
    }

    constructor ()
      ensures State() == EMPTY
    {
      list := [];
      memAvail := 0;
      next := Null;
    }

    /** insert_in_vptr_list */
    method Insert(block: nat)
      modifies this`list
      ensures list == [block] + old(list)
    {
      list := [block] + list;
    }

    /** my_chunk_malloc; the requirement is the assertion it starts with. */
    method Alloc(heap: Heap, size: nat) returns (ptr: Pointer)
      requires memAvail >= 0
      modifies this, heap
      ensures var r := ChunkMalloc(old(heap.blocks), old(State()), size);
        heap.blocks == r.blocks && State() == r.chunk && ptr == r.ptr
    {
      if memAvail < size {
        if size > CHUNK_SIZE {
          ptr := heap.Malloc(size);
          Insert(ptr.block);
          return;
        }
        if memAvail < FRAGMENT_THRESHOLD {
          next := heap.Malloc(CHUNK_SIZE);
          memAvail := CHUNK_SIZE;
          Insert(next.block);
        } else {
          ptr := heap.Malloc(size);
          Insert(ptr.block);
          return;
        }
      }
      var alignedSize := if size % ALIGN == 0 then size else size + ALIGN - size % ALIGN;
      ptr := next;
      if next.At? {
        next := At(next.block, next.off + alignedSize);
        memAvail := memAvail - alignedSize;
      }
    }

    /** free_chunk_memory */
    method FreeAll(heap: Heap)
      requires |heap.blocks.frees| == |heap.blocks.sizes| && forall b :: b in list ==> b < |heap.blocks.sizes|
      modifies this, heap
      ensures heap.blocks == FreeList(old(heap.blocks), old(list)) && State() == EMPTY
    {
      var curr: seq<nat> := list;
      while curr != []
        invariant forall b :: b in curr ==> b < |heap.blocks.sizes|
        invariant |heap.blocks.frees| == |heap.blocks.sizes|
        invariant FreeList(heap.blocks, curr) == FreeList(old(heap.blocks), old(list))
        decreases |curr|
      {
        assert curr[0] in curr && forall b :: b in curr[1..] ==> b in curr;
        heap.Free(curr[0]);
        curr := curr[1..];
      }
      list := [];
      memAvail := 0;
      next := Null;
    }
  }
}
