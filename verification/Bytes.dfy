/** Disk blocks as byte sequences, and the little-endian 32-bit words that
    the log header and indirect blocks keep inside them. */
module Bytes {

  const BSIZE := 1024
  const WORDS := 256
  const UINT_MAX1 := 0x1_0000_0000

  type byte = x: int | 0 <= x < 256

  type BlockBytes = b: seq<byte> | |b| == BSIZE witness seq(BSIZE, _ => 0)

  datatype Block = Block(data: BlockBytes)

  function Zeroed(): (b: Block) {
    Block(seq(BSIZE, _ => 0))
  }

  /** The i-th `uint` of a block, as `((uint*)bp->data)[i]` reads it. */
  function Word(b: Block, i: nat): (w: nat)
    requires i < WORDS
    ensures w < UINT_MAX1
  {
    b.data[4 * i] as int + 0x100 * (b.data[4 * i + 1] as int)
    + 0x1_0000 * (b.data[4 * i + 2] as int) + 0x100_0000 * (b.data[4 * i + 3] as int)
  }

  function PutWord(b: Block, i: nat, w: nat): Block
    requires i < WORDS && w < UINT_MAX1
  {
    Block(b.data[4 * i := w % 256][4 * i + 1 := w / 0x100 % 256][4 * i + 2 := w / 0x1_0000 % 256][4 * i + 3 := w / 0x100_0000])
  }

  lemma SplitWord(w: nat)
    requires w < UINT_MAX1
    ensures w == w % 256 + 0x100 * (w / 0x100 % 256) + 0x1_0000 * (w / 0x1_0000 % 256) + 0x100_0000 * (w / 0x100_0000)
    ensures w / 0x100_0000 < 256
  {
    assert w / 0x1_0000 == w / 0x100 / 256;
    assert w / 0x100_0000 == w / 0x1_0000 / 256;
  }

  lemma BytesAfterPut(b: Block, i: nat, w: nat, j: nat, k: nat)
    requires i < WORDS && j < WORDS && w < UINT_MAX1 && i != j && k < 4
    ensures PutWord(b, i, w).data[4 * j + k] == b.data[4 * j + k]
  {
  }

  /** Storing one word changes that word and no other. */
  lemma WordAfterPut(b: Block, i: nat, w: nat, j: nat)
    requires i < WORDS && j < WORDS && w < UINT_MAX1
    ensures Word(PutWord(b, i, w), j) == if i == j then w else Word(b, j)
  {
    if i == j {
      SplitWord(w);
    } else {
      BytesAfterPut(b, i, w, j, 0);
      BytesAfterPut(b, i, w, j, 1);
      BytesAfterPut(b, i, w, j, 2);
      BytesAfterPut(b, i, w, j, 3);
    }
  }

  lemma ZeroedWords(j: nat)
    requires j < WORDS
    ensures Word(Zeroed(), j) == 0
  {
  }
}
