/** malloc and free: addresses, the blocks that are live, and their contents. */
module Heaps {
  const NULL: nat := 0

  class Heap {
    /** The live blocks by address. */
    var blocks: map<nat, seq<char>>
    /** The next address; an address is never handed out twice. */
    var next: nat
    /** How many more blocks MallocOrNull can get. */
    var budget: nat

    ghost predicate Valid()
      reads this
    {
      NULL < next && NULL !in blocks && forall p :: p in blocks ==> p < next
    }

    /** malloc when memory is available. */
    method Malloc(size: nat) returns (p: nat)
      requires Valid()
      modifies `blocks, `next
      ensures Valid()
      ensures p == old(next) && next == p + 1 && p !in old(blocks)
      ensures blocks == old(blocks)[p := seq(size, _ => '\0')]
    {
      p := next;
      blocks := blocks[p := seq(size, _ => '\0')];
      next := next + 1;
    }

    /** malloc when memory can run out. */
    method MallocOrNull(size: nat) returns (p: nat)
      requires Valid()
      modifies this
      ensures Valid()
      ensures if old(budget) == 0 then
                p == NULL && blocks == old(blocks) && next == old(next) && budget == 0
              else
                p == old(next) && next == p + 1 && budget == old(budget) - 1 &&
                p !in old(blocks) && blocks == old(blocks)[p := seq(size, _ => '\0')]
    {
      if budget == 0 {
        return NULL;
      }
      budget := budget - 1;
      p := Malloc(size);
    }

    /** free: the block must be live, so nothing is freed twice. */
    method Free(p: nat)
      requires Valid() && p in blocks
      modifies this`blocks
      ensures Valid() && blocks == old(blocks) - {p}
    {
      blocks := blocks - {p};
    }

    /** Replace the contents of a live block by contents of the same size. */
    method Fill(p: nat, contents: seq<char>)
      requires Valid() && p in blocks && |contents| == |blocks[p]|
      modifies this`blocks
      ensures Valid() && blocks == old(blocks)[p := contents]
    {
      blocks := blocks[p := contents];
    }
  }
}
