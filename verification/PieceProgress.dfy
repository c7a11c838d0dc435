/** One piece being downloaded, with its assignment cursor and received counter. */
module PieceProgress {
  import opened ByteStrings
  import opened Wrappers
  import opened Counting
  import opened InfoLengths
  import opened DiskSpans
  import opened PickerSpec

  class PieceProgress {
    const pieceLength: nat
    const numBlocks: nat
    var blocksReceived: seq<bool>
    var blocksAssigned: seq<bool>
    var receivedCount: nat
    /** Advances without wrapping; every block before it is received or asked for. */
    var assignCursor: nat
    var data: Bytes
    var activePeers: nat

    ghost function View(): Prog
      reads this
    {
      Prog(pieceLength, blocksReceived, blocksAssigned, data, activePeers)
    }

    ghost predicate Valid()
      reads this
    {
      && ProgInv(View()) && numBlocks == NumBlocks(pieceLength)
      && receivedCount == CountTrue(blocksReceived)
      && assignCursor <= numBlocks
      && forall i :: 0 <= i < assignCursor ==> blocksReceived[i] || blocksAssigned[i]
    }

    constructor (length: nat)
      requires length > 0
      ensures Valid() && View() == NewProg(length)
    {
      var n := NumBlocks(length);
      pieceLength, numBlocks := length, n;
      blocksReceived := seq(n, _ => false);
      blocksAssigned := seq(n, _ => false);
      receivedCount, assignCursor, activePeers := 0, 0, 0;
      data := seq(length, _ => 0);
      new;
      CountNone(blocksReceived);
    }

    function LengthOfBlock(block: nat): (r: nat)
      requires block < numBlocks
      ensures numBlocks == NumBlocks(pieceLength) ==> r == BlockLength(pieceLength, block)
    {
      if block == numBlocks - 1 then
        var remainder := pieceLength % BLOCK_SIZE;
        if remainder == 0 then BLOCK_SIZE else remainder
      else BLOCK_SIZE
    }

    predicate IsComplete()
      reads this
    {
      receivedCount == numBlocks
    }

    /** The cursor scan finds what a full scan would find. */
    method AssignNextBlock() returns (r: Option<nat>)
      requires Valid()
      modifies this
      ensures Valid() && r == LeastFree(old(View()), 0)
      ensures View() == if r.Some? then old(View()).(asked := old(View()).asked[r.value := true]) else old(View())
    {
      ghost var before := View();
      LeastFreeFrom(before, assignCursor);
      while assignCursor < numBlocks
        invariant assignCursor <= numBlocks && View() == before && receivedCount == old(receivedCount)
        invariant LeastFree(before, 0) == LeastFree(before, assignCursor)
        invariant forall i :: 0 <= i < assignCursor ==> blocksReceived[i] || blocksAssigned[i]
      {
        var idx := assignCursor;
        assignCursor := assignCursor + 1;
        if !blocksReceived[idx] && !blocksAssigned[idx] {
          blocksAssigned := blocksAssigned[idx := true];
          return Some(idx);
        }
      }
      r := None;
    }

    /** Returns whether the block is new. */
    method MarkReceived(block: nat) returns (isNew: bool)
      requires Valid()
      modifies this
      ensures Valid() && isNew == IsNew(old(View()), block)
      ensures View() == if isNew then old(View()).(received := old(View()).received[block := true],
                                                   asked := old(View()).asked[block := true])
                        else old(View())
    {
      if block >= |blocksReceived| || blocksReceived[block] {
        return false;
      }
      CountUpdate(blocksReceived, block);
      blocksReceived := blocksReceived[block := true];
      blocksAssigned := blocksAssigned[block := true];
      receivedCount := receivedCount + 1;
      assignCursor := 0;
      isNew := true;
    }

    /** Copy a block's bytes to their offset, if they fit. */
    method CopyData(offset: nat, bytes: Bytes)
      requires Valid()
      modifies this
      ensures Valid() && View() == old(View()).(data := PutData(old(View()), offset, bytes))
    {
      var end := offset + |bytes|;
      if end <= |data| {
        data := data[..offset] + bytes + data[end..];
      }
    }

    method MarkUnassigned(block: nat)
      requires Valid()
      modifies this
      ensures Valid() && View() == Unask(old(View()), block)
    {
      if block < |blocksAssigned| && !blocksReceived[block] {
        blocksAssigned := blocksAssigned[block := false];
        if block < assignCursor {
          assignCursor := block;
        }
      }
    }

    method AddPeer()
      requires Valid()
      modifies this
      ensures Valid()
      ensures View() == old(View()).(activePeers := if old(activePeers) < U8_MAX then old(activePeers) + 1 else U8_MAX)
    {
      activePeers := if activePeers < U8_MAX then activePeers + 1 else U8_MAX;
    }

    /** The blocks not received, in order, whether or not they are asked for. */
    method UnreceivedBlocks() returns (blocks: seq<(nat, nat)>)
      requires Valid()
      ensures forall b: nat, n: nat :: (b, n) in blocks <==> IsNew(View(), b) && n == BlockLength(pieceLength, b)
      ensures forall i, j :: 0 <= i < j < |blocks| ==> blocks[i].0 < blocks[j].0
    {
      hide BlockLength;
      blocks := [];
      for i := 0 to numBlocks
        invariant forall b: nat, n: nat :: (b, n) in blocks <==>
          b < i && IsNew(View(), b) && n == BlockLength(pieceLength, b)
        invariant forall k :: 0 <= k < |blocks| ==> blocks[k].0 < i
        invariant forall k, m :: 0 <= k < m < |blocks| ==> blocks[k].0 < blocks[m].0
      {
        if !blocksReceived[i] {
          blocks := blocks + [(i, LengthOfBlock(i))];
        }
      }
    }
  }

  /** Skipping blocks that are not free does not change the least free one. */
  lemma {:induction false} LeastFreeFrom(p: Prog, k: nat)
    requires |p.received| == |p.asked| && k <= |p.received|
    requires forall i :: 0 <= i < k ==> !Free(p, i)
    ensures LeastFree(p, 0) == LeastFree(p, k)
  {
    if k > 0 {
      LeastFreeFrom(p, k - 1);
    }
  }

  lemma CompleteIffAllReceived(p: Prog, count: nat)
    requires count == CountTrue(p.received)
    ensures count == |p.received| <==> AllReceived(p)
  {
    CountFull(p.received);
  }
}
