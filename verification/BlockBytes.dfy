/** Disk blocks as bytes: the little-endian 32-bit words of an indirect block and the
    bits of a bitmap block. */
module BlockBytes {
  import opened Basics

  type byte = bv8

  const BSIZE: nat := 512
  const NINDIRECT: nat := BSIZE / 4
  const BPB: nat := BSIZE * 8

  function Zeros(n: nat): (s: seq<byte>)
    ensures |s| == n && forall i :: 0 <= i < n ==> s[i] == 0
  {
    Repeat(0, n)
  }

  // ---------------------------------------------------------------- words

  function Word(b: seq<byte>, i: nat): nat
    requires |b| == BSIZE && i < NINDIRECT
  {
    b[4 * i] as nat + 0x100 * b[4 * i + 1] as nat + 0x1_0000 * b[4 * i + 2] as nat + 0x100_0000 * b[4 * i + 3] as nat
  }

  function Byte(w: nat): byte {
    (w % 0x100) as byte
  }

  function SetWord(b: seq<byte>, i: nat, w: nat): (b': seq<byte>)
    requires |b| == BSIZE && i < NINDIRECT
    ensures |b'| == BSIZE
  {
    b[4 * i := Byte(w)][4 * i + 1 := Byte(w / 0x100)]
      [4 * i + 2 := Byte(w / 0x1_0000)][4 * i + 3 := Byte(w / 0x100_0000)]
  }

  lemma BytesOf(w: nat)
    requires w < 0x1_0000_0000
    ensures w == w % 0x100 + 0x100 * (w / 0x100 % 0x100) + 0x1_0000 * (w / 0x1_0000 % 0x100)
      + 0x100_0000 * (w / 0x100_0000 % 0x100)
  {
  }

  lemma NextByte(b: byte)
    requires b != 0xFF
    ensures (b + 1) as nat == b as nat + 1
  {
  }

  /** Every number below 256 is the value of a byte. */
  lemma {:induction false} ByteOf(n: nat) returns (b: byte)
    requires n < 0x100
    ensures b as nat == n
  {
    b := 0;
    if n > 0 {
      var c := ByteOf(n - 1);
      NextByte(c);
      b := c + 1;
    }
  }

  lemma ByteIs(n: nat, b: byte)
    requires n < 0x100 && b as nat == n
    ensures n as byte == b
  {
  }

  lemma ByteBack(n: nat)
    requires n < 0x100
    ensures n as byte as nat == n
  {
    var b := ByteOf(n);
    ByteIs(n, b);
  }

  lemma ByteValue(w: nat)
    ensures Byte(w) as nat == w % 0x100
  {
    ByteBack(w % 0x100);
  }

  lemma StoredBytes(b: seq<byte>, i: nat, w: nat)
    requires |b| == BSIZE && i < NINDIRECT
    ensures var c := SetWord(b, i, w);
      && c[4 * i] == Byte(w) && c[4 * i + 1] == Byte(w / 0x100)
      && c[4 * i + 2] == Byte(w / 0x1_0000) && c[4 * i + 3] == Byte(w / 0x100_0000)
      && forall k :: 0 <= k < BSIZE && !(4 * i <= k < 4 * i + 4) ==> c[k] == b[k]
  {
  }

  /** Storing a 32-bit word changes that word of the block and no other. */
  lemma WordStored(b: seq<byte>, i: nat, w: nat, j: nat)
    requires |b| == BSIZE && i < NINDIRECT && j < NINDIRECT && w < 0x1_0000_0000
    ensures Word(SetWord(b, i, w), j) == if i == j then w else Word(b, j)
  {
    StoredBytes(b, i, w);
    if i == j {
      ByteValue(w);
      ByteValue(w / 0x100);
      ByteValue(w / 0x1_0000);
      ByteValue(w / 0x100_0000);
      BytesOf(w);
    }
  }

  lemma WordOfZeros(i: nat)
    requires i < NINDIRECT
    ensures Word(Zeros(BSIZE), i) == 0
  {
  }

  // ---------------------------------------------------------------- bits

  function Mask(i: nat): byte
    requires i < 8
  {
    1 << i
  }

  lemma MasksDiffer(x: byte, i: nat, j: nat)
    requires i < 8 && j < 8
    ensures (x | Mask(i)) & Mask(j) != 0 <==> i == j || x & Mask(j) != 0
    ensures (x & !Mask(i)) & Mask(j) != 0 <==> i != j && x & Mask(j) != 0
  {
  }

  function Masked(x: byte, i: nat, on: bool): byte
    requires i < 8
  {
    if on then x | Mask(i) else x & !Mask(i)
  }

  lemma MaskedBit(x: byte, i: nat, on: bool, j: nat)
    requires i < 8 && j < 8
    ensures Masked(x, i, on) & Mask(j) != 0 <==> if i == j then on else x & Mask(j) != 0
  {
    MasksDiffer(x, i, j);
  }

  lemma SameBit(i: nat, j: nat)
    requires i / 8 == j / 8
    ensures i % 8 == j % 8 <==> i == j
  {
  }

  predicate Bit(b: seq<byte>, i: nat)
    requires |b| == BSIZE && i < BPB
  {
    b[i / 8] & Mask(i % 8) != 0
  }

  function WithBit(b: seq<byte>, i: nat, on: bool): (b': seq<byte>)
    requires |b| == BSIZE && i < BPB
    ensures |b'| == BSIZE
  {
    b[i / 8 := Masked(b[i / 8], i % 8, on)]
  }

  /** Setting or clearing a bit of a bitmap block changes that bit and no other. */
  lemma BitStored(b: seq<byte>, i: nat, on: bool, j: nat)
    requires |b| == BSIZE && i < BPB && j < BPB
    ensures Bit(WithBit(b, i, on), j) <==> (if i == j then on else Bit(b, j))
  {
    if i / 8 == j / 8 {
      MaskedBit(b[i / 8], i % 8, on, j % 8);
      SameBit(i, j);
    }
  }
}
