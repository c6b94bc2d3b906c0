/**
  On-disk layout of the xv6 file system: bytes, bits of the free map, and the
  little-endian block numbers kept in an indirect block.
 */
module FsLayout {

  import opened Common

  const BSIZE: nat := 1024
  const BPB: nat := 8192        // bitmap bits per block
  const NDIRECT: nat := 12
  const NINDIRECT: nat := 256
  const MAXFILE: nat := 268     // blocks of the largest file

  function Zeroes(): (b: seq<byte>)
    ensures |b| == BSIZE && forall x :: 0 <= x < BSIZE ==> b[x] == 0
  {
    seq(BSIZE, _ => 0)
  }

  type Block = b: seq<byte> | |b| == BSIZE witness Zeroes()

  /** The super block; `dataStart` is the first block after the bitmap. */
  datatype Super = Super(size: nat, bmapStart: nat, dataStart: nat) {
    predicate Valid() {
      && 0 < bmapStart
      && bmapStart + (size + BPB - 1) / BPB <= dataStart <= size < U32
    }
  }

  // ---- bits of one byte

  function Mask(k: nat): byte
    requires k < 8
  {
    [1, 2, 4, 8, 16, 32, 64, 128][k]
  }

  predicate Bit(x: byte, k: nat)
    requires k < 8
  {
    x & Mask(k) != 0
  }

  function SetBit(x: byte, k: nat): byte
    requires k < 8
  {
    x | Mask(k)
  }

  function ClearBit(x: byte, k: nat): byte
    requires k < 8
  {
    x & !Mask(k)
  }

  lemma SetBitAt(x: byte, k: nat, l: nat)
    requires k < 8 && l < 8
    ensures Bit(SetBit(x, k), l) == (l == k || Bit(x, l))
  {
  }

  lemma ClearBitAt(x: byte, k: nat, l: nat)
    requires k < 8 && l < 8
    ensures Bit(ClearBit(x, k), l) == (l != k && Bit(x, l))
  {
  }

  lemma NextByte(x: byte)
    requires x != 255
    ensures (x + 1) as int == x as int + 1
  {
  }

  function ToByte(v: nat): (r: byte)
    requires v < 256
    ensures OfByte(r) == v
  {
    if v == 0 then 0 else var x := ToByte(v - 1); NextByte(x); x + 1
  }

  function OfByte(x: byte): (r: nat)
    ensures r < 256
  {
    x as int
  }

  // ---- words of an indirect block

  function Little(b0: byte, b1: byte, b2: byte, b3: byte): (w: nat)
    ensures w < U32
  {
    OfByte(b0) + 256 * (OfByte(b1) + 256 * (OfByte(b2) + 256 * OfByte(b3)))
  }

  function Word(b: Block, j: nat): (w: nat)
    requires j < NINDIRECT
    ensures w < U32
  {
    Little(b[4 * j], b[4 * j + 1], b[4 * j + 2], b[4 * j + 3])
  }

  function PutBytes(b: Block, j: nat, b0: byte, b1: byte, b2: byte, b3: byte): Block
    requires j < NINDIRECT
  {
    b[4 * j := b0][4 * j + 1 := b1][4 * j + 2 := b2][4 * j + 3 := b3]
  }

  function PutWord(b: Block, j: nat, v: nat): Block
    requires j < NINDIRECT && v < U32
  {
    PutBytes(b, j, ToByte(v % 256), ToByte(v / 256 % 256), ToByte(v / 256 / 256 % 256), ToByte(v / 256 / 256 / 256))
  }

  lemma Digits(v: nat)
    requires v < U32
    ensures Little(ToByte(v % 256), ToByte(v / 256 % 256), ToByte(v / 256 / 256 % 256), ToByte(v / 256 / 256 / 256)) == v
  {
  }

  lemma PutWordAt(b: Block, j: nat, v: nat, k: nat)
    requires j < NINDIRECT && k < NINDIRECT && v < U32
    ensures Word(PutWord(b, j, v), k) == if k == j then v else Word(b, k)
  {
    Digits(v);
    var c := PutWord(b, j, v);
    if k != j {
      assert c[4 * k] == b[4 * k] && c[4 * k + 1] == b[4 * k + 1];
      assert c[4 * k + 2] == b[4 * k + 2] && c[4 * k + 3] == b[4 * k + 3];
    }
  }

  lemma ZeroWord(j: nat)
    requires j < NINDIRECT
    ensures Word(Zeroes(), j) == 0
  {
  }

  // ---- the free map, spread over the bitmap blocks of the disk

  predicate WellSized(sb: Super, disk: seq<Block>) {
    sb.Valid() && |disk| == sb.size
  }

  /** The bitmap block holding the bit of block `b`. */
  function MapBlock(sb: Super, b: nat): (r: nat)
    requires sb.Valid() && b < sb.size
    ensures sb.bmapStart <= r < sb.dataStart
  {
    b / BPB + sb.bmapStart
  }

  predicate Used(sb: Super, disk: seq<Block>, b: nat)
    requires WellSized(sb, disk) && b < sb.size
  {
    Bit(disk[MapBlock(sb, b)][b % BPB / 8], b % BPB % 8)
  }

  function MarkUsed(sb: Super, disk: seq<Block>, b: nat): (r: seq<Block>)
    requires WellSized(sb, disk) && b < sb.size
    ensures |r| == |disk|
  {
    var m := disk[MapBlock(sb, b)];
    disk[MapBlock(sb, b) := m[b % BPB / 8 := SetBit(m[b % BPB / 8], b % BPB % 8)]]
  }

  function MarkFree(sb: Super, disk: seq<Block>, b: nat): (r: seq<Block>)
    requires WellSized(sb, disk) && b < sb.size
    ensures |r| == |disk|
  {
    var m := disk[MapBlock(sb, b)];
    disk[MapBlock(sb, b) := m[b % BPB / 8 := ClearBit(m[b % BPB / 8], b % BPB % 8)]]
  }

  lemma SamePosition(b: nat, c: nat)
    requires b / BPB == c / BPB && b % BPB / 8 == c % BPB / 8 && b % BPB % 8 == c % BPB % 8
    ensures b == c
  {
  }

  lemma MarkUsedAt(sb: Super, disk: seq<Block>, b: nat, c: nat)
    requires WellSized(sb, disk) && b < sb.size && c < sb.size
    ensures Used(sb, MarkUsed(sb, disk, b), c) == (c == b || Used(sb, disk, c))
  {
    if b / BPB == c / BPB && b % BPB / 8 == c % BPB / 8 {
      SetBitAt(disk[MapBlock(sb, b)][b % BPB / 8], b % BPB % 8, c % BPB % 8);
      if b % BPB % 8 == c % BPB % 8 { SamePosition(b, c); }
    }
  }

  lemma MarkFreeAt(sb: Super, disk: seq<Block>, b: nat, c: nat)
    requires WellSized(sb, disk) && b < sb.size && c < sb.size
    ensures Used(sb, MarkFree(sb, disk, b), c) == (c != b && Used(sb, disk, c))
  {
    if b / BPB == c / BPB && b % BPB / 8 == c % BPB / 8 {
      ClearBitAt(disk[MapBlock(sb, b)][b % BPB / 8], b % BPB % 8, c % BPB % 8);
      if b % BPB % 8 == c % BPB % 8 { SamePosition(b, c); }
    }
  }
}
