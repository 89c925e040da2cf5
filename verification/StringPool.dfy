/**
  STRING_POOL: strings are built at the end of the newest block and, once finished, are
  handed out as pointers. A finished string must stay where it is until the pool is
  cleared, while the unfinished one may move when the pool grows.

  A block is an array; its identity is its address. `finished` records every non-empty
  string handed out.
*/
module StringPool {
  import opened Scanner
  import opened Orders

  const INIT_BLOCK_SIZE: nat := 1024

  type Block = array<Byte>

  /** A pointer that was handed out, and the string it was handed out for. */
  datatype Pointer = Pointer(block: Block, off: nat, text: Text)

  /** Each block is on exactly one of the two lists, and once. */
  ghost predicate Apart(blocks: seq<Block>, free: seq<Block>)
  {
    && Distinct(blocks) && Distinct(free)
    && (forall k :: 0 <= k < |blocks| ==> blocks[k] !in free && blocks[k].Length > 0)
    && (forall k :: 0 <= k < |free| ==> free[k].Length > 0)
  }

  lemma ApartTake(blocks: seq<Block>, free: seq<Block>)
    requires Apart(blocks, free) && free != []
    ensures free[0] !in blocks && free[0] !in free[1..] && Apart(blocks, free[1..])
  {
    assert forall k :: 0 <= k < |free[1..]| ==> free[1..][k] == free[k + 1];
  }

  lemma ApartGive(blocks: seq<Block>, free: seq<Block>)
    requires Apart(blocks, free) && blocks != []
    ensures Apart(blocks[1..], [blocks[0]] + free)
  {
    assert forall k :: 0 <= k < |blocks[1..]| ==> blocks[1..][k] == blocks[k + 1];
  }

  lemma ApartNew(blocks: seq<Block>, free: seq<Block>, b: Block)
    requires Apart(blocks, free) && b !in blocks && b !in free && b.Length > 0
    ensures Apart([b] + blocks, free)
  {
  }

  /** A finished string is intact, in a block in use, and out of reach of the unfinished one. */
  ghost predicate Intact(f: Pointer, blocks: seq<Block>, start: nat)
    reads f.block
  {
    && f.text != [] && f.block in blocks && f.off + |f.text| <= f.block.Length
    && (f.block == blocks[0] ==> f.off + |f.text| <= start)
    && f.block[f.off..f.off + |f.text|] == f.text
  }

  class Pool {
    var blocks: seq<Block>       // newest first
    var freeBlocks: seq<Block>
    var start: nat               // start, ptr and end are offsets into the newest block, 0 when there is none
    var ptr: nat
    var end: nat
    ghost var finished: seq<Pointer>

    ghost predicate Valid()
      reads this, set b | b in blocks
    {
      && Apart(blocks, freeBlocks)
      && start <= ptr <= end
      && (end == if blocks == [] then 0 else blocks[0].Length)
      && (forall k :: 0 <= k < |finished| ==> finished[k].block in blocks && Intact(finished[k], blocks, start))
    }

    /** The unfinished string. */
    ghost function Pending(): Text
      requires Valid()
      reads this, set b | b in blocks
    {
      if blocks == [] then [] else blocks[0][start..ptr]
    }

    constructor ()
      ensures Valid() && Pending() == [] && finished == [] && blocks == freeBlocks == []
    {
      blocks, freeBlocks, start, ptr, end, finished := [], [], 0, 0, 0, [];
    }

    /** The newest block becomes `b`, with what is between start and end copied to it. */
    method Adopt(b: Block)
      requires Valid() && b !in blocks && b !in freeBlocks && end - start < b.Length
      modifies this`blocks, this`start, this`ptr, this`end, b
      ensures Valid() && Pending() == old(Pending())
      ensures blocks == [b] + old(blocks) && start == 0 && end == b.Length && ptr == old(ptr - start)
    {
      ApartNew(blocks, freeBlocks, b);
      hide Apart;
      if blocks != [] {
        var n, from, off := end - start, blocks[0], start;
        forall k | 0 <= k < n { b[k] := from[off + k]; }
      }
      blocks := [b] + blocks;
      ptr, start, end := ptr - start, 0, b.Length;
      forall k | 0 <= k < |finished| ensures finished[k].block in blocks && Intact(finished[k], blocks, start) {
        assert finished[k].block in old(blocks) && finished[k].block != b;
      }
    }

    /** No block is lost but the newest, which may move when it holds nothing finished. */
    ghost predicate Keeps(was: seq<Block>, wasFree: seq<Block>, wasStart: nat)
      reads this
    {
      forall b :: b in was + wasFree ==> b in blocks || b in freeBlocks || (was != [] && b == was[0] && wasStart == 0)
    }

    method GrowFromFree()
      requires Valid() && freeBlocks != [] && end - start < freeBlocks[0].Length
      modifies this, freeBlocks[0]
      ensures Valid() && Pending() == old(Pending()) && finished == old(finished)
      ensures blocks == [old(freeBlocks[0])] + old(blocks) && freeBlocks == old(freeBlocks)[1..]
      ensures start == 0 && end == blocks[0].Length && ptr == old(ptr - start)
    {
      ApartTake(blocks, freeBlocks);
      hide Apart;
      var b := freeBlocks[0];
      freeBlocks := freeBlocks[1..];
      Adopt(b);
    }

    /** realloc: the newest block moves, and nothing in it was finished. */
    method Realloc()
      requires Valid() && blocks != [] && start == 0
      modifies this`blocks, this`end
      ensures Valid() && Pending() == old(Pending())
      ensures blocks != [] && fresh(blocks[0]) && blocks[1..] == old(blocks)[1..] && end == 2 * old(end)
    {
      var b := new Byte[2 * end];
      var n, from := ptr, blocks[0];
      forall k | 0 <= k < n { b[k] := from[k]; }
      ApartReplace(blocks, freeBlocks, b);
      hide Apart;
      ghost var was := blocks;
      blocks := [b] + blocks[1..];
      end := b.Length;
      forall k | 0 <= k < |finished| ensures finished[k].block in blocks && Intact(finished[k], blocks, start) {
        assert Intact(finished[k], was, start) && finished[k].block in was[1..];
      }
    }

    /** poolGrow; allocation succeeds. */
    method Grow()
      requires Valid()
      modifies this, set b | b in freeBlocks
      ensures Valid() && Pending() == old(Pending()) && finished == old(finished)
      ensures end - start > old(end - start) && ptr < end
      ensures blocks != [] && Keeps(old(blocks), old(freeBlocks), old(start)) && forall b :: b in blocks ==>
        b in old(blocks) || b in old(freeBlocks) || fresh(b)
      ensures forall b :: b in freeBlocks ==> b in old(freeBlocks)
    {
      hide Intact;
      if freeBlocks != [] && (blocks == [] || end - start < freeBlocks[0].Length) {
        FreeSize(blocks, freeBlocks);
        GrowFromFree();
      } else if blocks != [] && start == 0 {
        FirstSize(blocks, freeBlocks);
        ghost var was := blocks;
        Realloc();
        assert was == [was[0]] + was[1..] && blocks == [blocks[0]] + blocks[1..];
      } else {
        hide Apart;
        var size := end - start;
        var b := new Byte[if size < INIT_BLOCK_SIZE then INIT_BLOCK_SIZE else 2 * size];
        Adopt(b);
      }
    }

    /** poolAppendChar */
    method AppendChar(c: Byte)
      requires Valid()
      modifies this, set b | b in blocks, set b | b in freeBlocks
      ensures Valid() && Pending() == old(Pending()) + [c] && finished == old(finished)
      ensures forall b :: b in blocks || b in freeBlocks ==> b in old(blocks) || b in old(freeBlocks) || fresh(b)
    {
      if ptr == end {
        Grow();
      }
      Put(c);
    }

    /** *ptr++ = c */
    method Put(c: Byte)
      requires Valid() && blocks != [] && ptr < end
      modifies this`ptr, blocks[0]
      ensures Valid() && Pending() == old(Pending()) + [c]
    {
      hide Apart;
      blocks[0][ptr] := c;
      ptr := ptr + 1;
      forall k | 0 <= k < |finished| ensures finished[k].block in blocks && Intact(finished[k], blocks, start) {
        assert old(Intact(finished[k], blocks, start));
      }
    }

    /** poolAppendString, and poolAppend for text that needs no conversion. */
    method AppendText(text: Text)
      requires Valid()
      modifies this, set b | b in blocks, set b | b in freeBlocks
      ensures Valid() && Pending() == old(Pending()) + text && finished == old(finished)
      ensures forall b :: b in blocks || b in freeBlocks ==> b in old(blocks) || b in old(freeBlocks) || fresh(b)
    {
      hide Apart, Intact;
      for i := 0 to |text|
        invariant Valid() && Pending() == old(Pending()) + text[..i] && finished == old(finished)
        invariant forall b :: b in blocks || b in freeBlocks ==> b in old(blocks) || b in old(freeBlocks) || fresh(b)
      {
        AppendChar(text[i]);
        assert text[..i + 1] == text[..i] + [text[i]];
      }
      assert text[..|text|] == text;
    }

    /** poolStart and poolFinish: the string is handed out. */
    method Finish() returns (p: Pointer)
      requires Valid() && blocks != []
      modifies this`start, this`finished
      ensures Valid() && Pending() == [] && p == Pointer(blocks[0], old(start), old(Pending()))
      ensures finished == old(finished) + if old(Pending()) == [] then [] else [p]
    {
      hide Apart;
      p := Pointer(blocks[0], start, blocks[0][start..ptr]);
      if start < ptr {
        finished := finished + [p];
      }
      start := ptr;
    }

    /** poolDiscard */
    method Discard()
      requires Valid()
      modifies this`ptr
      ensures Valid() && Pending() == []
    {
      ptr := start;
    }

    /** poolChop */
    method Chop()
      requires Valid() && Pending() != []
      modifies this`ptr
      ensures Valid() && Pending() == old(Pending())[..|old(Pending())| - 1]
    {
      ptr := ptr - 1;
    }

    /** poolClear: every block becomes free, and what was handed out is void. */
    method Clear()
      requires Valid()
      modifies this
      ensures Valid() && Pending() == [] && finished == [] && blocks == []
      ensures forall b :: b in freeBlocks <==> b in old(blocks) || b in old(freeBlocks)
    {
      ghost var was, wasFree := blocks, freeBlocks;
      finished := [];
      if freeBlocks == [] {
        freeBlocks := blocks;
      } else {
        var p := blocks;
        while p != []
          invariant Apart(p, freeBlocks) && blocks == was && finished == []
          invariant forall b :: b in was || b in wasFree <==> b in p || b in freeBlocks
          decreases |p|
        {
          ApartGive(p, freeBlocks);
          assert p == [p[0]] + p[1..];
          freeBlocks := [p[0]] + freeBlocks;
          p := p[1..];
        }
      }
      blocks := [];
      start, ptr, end := 0, 0, 0;
    }
  }

  lemma ApartReplace(blocks: seq<Block>, free: seq<Block>, b: Block)
    requires Apart(blocks, free) && blocks != [] && b !in blocks && b !in free && b.Length > 0
    ensures Apart([b] + blocks[1..], free)
  {
    ApartGive(blocks, free);
    assert forall k :: 0 <= k < |blocks[1..]| ==> blocks[1..][k] in blocks;
  }

  lemma FreeSize(blocks: seq<Block>, free: seq<Block>)
    requires Apart(blocks, free) && free != []
    ensures free[0].Length > 0
  {
  }

  lemma FirstSize(blocks: seq<Block>, free: seq<Block>)
    requires Apart(blocks, free) && blocks != []
    ensures blocks[0].Length > 0
  {
  }
}
