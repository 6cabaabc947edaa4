/** How little the chunk allocator of libarchfpga wastes. */
module ChunkEconomy {
  import opened ChunkMemory

  /** The most that can be left of a chunk when the next one is opened: a multiple of the alignment below
      the threshold. */
  const SCRAP := 96

  function Sum(s: seq<nat>): nat { if s == [] then 0 else Sum(s[..|s| - 1]) + s[|s| - 1] }

  /** The bytes asked for, each request rounded up. */
  function Asked(s: seq<nat>): nat { if s == [] then 0 else Aligned(s[0]) + Asked(s[1..]) }

  /** A request that fits the open chunk is answered with its next bytes and adds no block. */
  lemma FitsOpen(m: Blocks, ch: Chunk, given: seq<Piece>, size: nat)
    requires Inv(m, ch, given) && 0 < size <= ch.memAvail
    ensures var r := ChunkMalloc(m, ch, size);
      && r.blocks == m && r.chunk.list == ch.list && r.ptr == ch.next
      && ch.memAvail - size - ALIGN < r.chunk.memAvail <= ch.memAvail - size
  {
    AlignedIs(size);
  }

  /** One that does not fit adds one block: of just its size, and the open chunk stays open, if it is
      larger than a chunk or a good part of the open chunk would be lost; else a new chunk. */
  lemma FitsNot(m: Blocks, ch: Chunk, given: seq<Piece>, size: nat)
    requires Inv(m, ch, given) && size > ch.memAvail
    ensures var r := ChunkMalloc(m, ch, size);
      && |r.blocks.sizes| == |m.sizes| + 1 && r.blocks.sizes[..|m.sizes|] == m.sizes && r.ptr == At(|m.sizes|, 0)
      && (size > CHUNK_SIZE || ch.memAvail > SCRAP ==>
            r.blocks.sizes[|m.sizes|] == size && r.chunk.memAvail == ch.memAvail && r.chunk.next == ch.next)
      && (size <= CHUNK_SIZE && ch.memAvail <= SCRAP ==>
            r.blocks.sizes[|m.sizes|] == CHUNK_SIZE
              && CHUNK_SIZE - size - ALIGN < r.chunk.memAvail <= CHUNK_SIZE - size)
  {
    AlignedIs(size);
    assert ch.memAvail % ALIGN == 0;
  }

  /** What has been allocated and not been asked for. */
  ghost predicate Economical(m: Blocks, ch: Chunk, asked: nat) {
    Sum(m.sizes) <= asked + ch.memAvail + if m.sizes == [] then 0 else SCRAP * (|m.sizes| - 1)
  }

  lemma SumNext(s: seq<nat>, x: nat)
    ensures Sum(s + [x]) == Sum(s) + x
  {
    assert (s + [x])[..|s|] == s;
  }

  /** The scraps of an open chunk, and what the invariant says of it. */
  lemma Scraps(m: Blocks, ch: Chunk, given: seq<Piece>)
    requires Inv(m, ch, given)
    ensures 0 <= ch.memAvail <= CHUNK_SIZE && (ch.memAvail >= FRAGMENT_THRESHOLD <==> ch.memAvail > SCRAP)
    ensures m.sizes == [] ==> ch.memAvail == 0
    ensures ch.memAvail > 0 ==> ch.next.At?
  {
    hide Accounted, PieceOk, Disjoint;
  }

  lemma MallocEconomical(m: Blocks, ch: Chunk, given: seq<Piece>, size: nat, asked: nat)
    requires Inv(m, ch, given) && size > 0 && Economical(m, ch, asked)
    ensures var r := ChunkMalloc(m, ch, size); Economical(r.blocks, r.chunk, asked + Aligned(size))
  {
    hide Inv, Aligned, Sum;
    AlignedIs(size);
    Scraps(m, ch, given);
    SumNext(m.sizes, size);
    SumNext(m.sizes, CHUNK_SIZE);
  }

  ghost predicate AllChunks(m: Blocks) { forall b :: 0 <= b < |m.sizes| ==> m.sizes[b] == CHUNK_SIZE }

  lemma {:induction false} ServeEconomical(m: Blocks, ch: Chunk, given: seq<Piece>, sizes: seq<nat>, asked: nat)
    requires Inv(m, ch, given) && Economical(m, ch, asked) && forall i :: 0 <= i < |sizes| ==> sizes[i] > 0
    ensures var r := Serve(m, ch, given, sizes); Economical(r.0, r.1, asked + Asked(sizes))
    ensures AllChunks(m) && (forall i :: 0 <= i < |sizes| ==> sizes[i] <= FRAGMENT_THRESHOLD) ==>
      AllChunks(Serve(m, ch, given, sizes).0)
    decreases |sizes|
  {
    hide Inv, Economical, Aligned;
    if sizes != [] {
      MallocKeeps(m, ch, given, sizes[0]);
      MallocEconomical(m, ch, given, sizes[0], asked);
      var r := ChunkMalloc(m, ch, sizes[0]);
      ServeEconomical(r.blocks, r.chunk, given + [PieceAt(r.ptr, sizes[0])], sizes[1..], asked + Aligned(sizes[0]));
    }
  }

  lemma {:induction false} SumOfChunks(s: seq<nat>)
    requires forall b :: 0 <= b < |s| ==> s[b] == CHUNK_SIZE
    ensures Sum(s) == CHUNK_SIZE * |s|
  {
    if s != [] {
      SumOfChunks(s[..|s| - 1]);
    }
  }

  lemma NothingAllocated()
    ensures Economical(Blocks([], []), EMPTY, 0) && AllChunks(Blocks([], []))
  {
  }

  /** MAIN RESULT: of all that a run has allocated at most SCRAP bytes for every block but one are lost,
      besides what is still open; and small requests take no more chunks than they fill but for that. */
  lemma RunIsEconomical(sizes: seq<nat>)
    requires forall i :: 0 <= i < |sizes| ==> sizes[i] > 0
    ensures var (m, ch, given) := Serve(Blocks([], []), EMPTY, [], sizes);
      && Sum(m.sizes) <= Asked(sizes) + ch.memAvail + (if m.sizes == [] then 0 else SCRAP * (|m.sizes| - 1))
      && ((forall i :: 0 <= i < |sizes| ==> sizes[i] <= FRAGMENT_THRESHOLD) ==>
            (|m.sizes| - 1) * (CHUNK_SIZE - SCRAP) <= Asked(sizes))
  {
    hide *;
    StartsEmpty();
    NothingAllocated();
    ServeEconomical(Blocks([], []), EMPTY, [], sizes, 0);
    ServeKeeps(Blocks([], []), EMPTY, [], sizes);
    var r := Serve(Blocks([], []), EMPTY, [], sizes);
    Unfolded(r.0, r.1, Asked(sizes));
    Scraps(r.0, r.1, r.2);
    if forall i :: 0 <= i < |sizes| ==> sizes[i] <= FRAGMENT_THRESHOLD {
      FewChunks(r.0, r.1, Asked(sizes));
    }
  }

  lemma FewChunks(m: Blocks, ch: Chunk, asked: nat)
    requires Economical(m, ch, asked) && AllChunks(m) && ch.memAvail <= CHUNK_SIZE
    ensures (|m.sizes| - 1) * (CHUNK_SIZE - SCRAP) <= asked
  {
    hide Sum;
    SumOfChunks(m.sizes);
  }

  lemma Unfolded(m: Blocks, ch: Chunk, asked: nat)
    requires Economical(m, ch, asked)
    ensures Sum(m.sizes) <= asked + ch.memAvail + if m.sizes == [] then 0 else SCRAP * (|m.sizes| - 1)
  {
  }
}
