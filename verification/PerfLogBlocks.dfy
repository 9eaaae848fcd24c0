/** The queue of fixed-size buffers of src/shell-perf-log.c, proved against lists of records. */
module PerfLogBlocks {
  import opened PerfLogFormat
  import opened PerfLogModel
  import opened PerfLogInvariant

  /** ShellPerfBlock. */
  class Block {
    const buffer: array<u8>
    var bytes: nat

    constructor ()
      ensures fresh(buffer) && buffer.Length == BLOCK_SIZE && bytes == 0
    {
      buffer := new u8[BLOCK_SIZE];
      bytes := 0;
    }

    /** memcpy of src to the end of the used part. */
    method Write(src: seq<u8>)
      requires bytes + |src| <= buffer.Length
      modifies this, buffer
      ensures bytes == old(bytes) + |src|
      ensures buffer[..bytes] == old(buffer[..bytes]) + src
    {
      forall i | 0 <= i < |src| { buffer[bytes + i] := src[i]; }
      bytes := bytes + |src|;
    }

    method WriteRecord(r: Record, ghost rs: seq<Record>)
      requires Holds(this, rs) && bytes + RecordSize(r.arg) <= BLOCK_SIZE
      modifies this, buffer
      ensures Holds(this, rs + [r])
    {
      hide EncodeArg;
      hide ToLE;
      hide EncodeBlock;
      EncodeBlockAppend(rs, r);
      Write(ToLE(r.delta, 4));
      Write(ToLE(r.id, 2));
      Write(EncodeArg(r.arg));
      assert buffer[..bytes] == EncodeBlock(rs) + EncodeRecord(r);
    }
  }

  /** The used part of a block is the encoding of the records rs. */
  ghost predicate Holds(block: Block, rs: seq<Record>)
    reads block, block.buffer
  {
    && block.bytes <= block.buffer.Length == BLOCK_SIZE
    && block.buffer[..block.bytes] == EncodeBlock(rs)
  }

  class BlockQueue {
    var blocks: seq<Block>

    /** The records written so far, block by block. */
    ghost var records: seq<seq<Record>>
    ghost var Repr: set<object>

    ghost predicate Valid()
      reads this, Repr
      ensures Valid() ==> this in Repr
    {
      && this in Repr
      && |records| == |blocks|
      && (forall b :: 0 <= b < |blocks| ==> blocks[b] in Repr && blocks[b].buffer in Repr)
      && (forall b, c :: 0 <= b < c < |blocks| ==> blocks[b] != blocks[c] && blocks[b].buffer != blocks[c].buffer)
      && (forall b :: 0 <= b < |blocks| ==> Holds(blocks[b], records[b]))
    }

    constructor ()
      ensures Valid() && fresh(Repr) && records == []
    {
      blocks, records := [], [];
      Repr := {this};
    }

    /** The second half of record_event: pick the block, then three memcpy calls. */
    method Push(r: Record)
      requires Valid() && RecordSize(r.arg) <= BLOCK_SIZE
      modifies Repr
      ensures Valid() && fresh(Repr - old(Repr))
      ensures records == Append(old(records), r)
    {
      var total := RecordSize(r.arg);
      hide RecordSize;
      hide EncodeBlock;
      if blocks == [] || total + blocks[|blocks| - 1].bytes > BLOCK_SIZE {
        AddBlock();
        assert records[|records| - 1] + [r] == [r];
      }
      WriteTail(r);
    }

    method AddBlock()
      requires Valid()
      modifies this
      ensures Valid() && fresh(Repr - old(Repr)) && old(Repr) <= Repr
      ensures records == old(records) + [[]] && blocks[|blocks| - 1].bytes == 0
    {
      var block := new Block();
      assert block.buffer[..0] == EncodeBlock([]);
      hide EncodeBlock;
      blocks := blocks + [block];
      records := records + [[]];
      Repr := Repr + {block, block.buffer};
    }

    method WriteTail(r: Record)
      requires Valid() && blocks != []
      requires blocks[|blocks| - 1].bytes + RecordSize(r.arg) <= BLOCK_SIZE
      modifies Repr
      ensures Valid() && Repr == old(Repr)
      ensures records == old(records)[|old(records)| - 1 := old(records)[|old(records)| - 1] + [r]]
    {
      hide RecordSize;
      hide EncodeBlock;
      var n := |blocks| - 1;
      blocks[n].WriteRecord(r, records[n]);
      records := records[n := records[n] + [r]];
    }
  }
}
