/** A volume as `mkfs` leaves it before it adds any file, and one step further: a file that
    uses its double-indirect slot. */
module EmptyVolume {
  import opened BlockBytes
  import opened FileTree

  /** n zeroed blocks. */
  function Blank(n: nat): (disk: map<nat, seq<byte>>)
    ensures forall b: nat :: b in disk <==> b < n
    ensures forall b: nat :: b < n ==> disk[b] == Zeros(BSIZE)
  {
    if n == 0 then map[] else Blank(n - 1)[n - 1 := Zeros(BSIZE)]
  }

  /** The disk with the bits of the first k blocks set. */
  function Marked(g: Geometry, k: nat): map<nat, seq<byte>> {
    if k == 0 then Blank(g.size) else BitDisk(g, Marked(g, k - 1), k - 1, true)
  }

  lemma {:induction false} MarkedShape(g: Geometry, k: nat)
    ensures forall b: nat :: b in Marked(g, k) <==> b < g.size
    ensures forall b: nat :: b < g.size ==> |Marked(g, k)[b]| == BSIZE
  {
    if k > 0 {
      MarkedShape(g, k - 1);
    }
  }

  lemma ClearBits(c: nat)
    ensures !Bit(Zeros(BSIZE), c % BPB)
  {
    NoBit(Mask(c % BPB % 8));
  }

  lemma NoBit(m: byte)
    ensures 0 & m == 0
  {
  }

  lemma {:induction false} MarkedAt(g: Geometry, k: nat, c: nat)
    requires g.Ok() && k <= g.size && c < g.size
    ensures BitOf(g, Marked(g, k), c) <==> c < k
  {
    if k == 0 {
      ClearBits(c);
      assert g.Bitmap(c) in Blank(g.size);
    } else {
      MarkedAt(g, k - 1, c);
      MarkedShape(g, k - 1);
      BitAt(g, Marked(g, k - 1), k - 1, true, c);
    }
  }

  function NoAddrs(n: nat): (addrs: seq<nat>)
    ensures |addrs| == n && forall i :: 0 <= i < n ==> addrs[i] == 0
  {
    if n == 0 then [] else NoAddrs(n - 1) + [0]
  }

  function EmptyInodes(inums: set<nat>): map<nat, Inode> {
    map n | n in inums :: Inode(NoAddrs(NADDRS), 0)
  }

  function EmptyFs(g: Geometry, inums: set<nat>): Fs {
    Fs(Marked(g, g.datastart), EmptyInodes(inums))
  }

  lemma {:induction false} NothingHeld(g: Geometry, inums: set<nat>, s: Slot)
    ensures At(EmptyFs(g, inums), s) == 0
  {
    if s.Entry? {
      NothingHeld(g, inums, s.table);
    }
  }

  /** The empty volume: exactly the metadata blocks are marked, and every file is empty. */
  lemma EmptySound(g: Geometry, inums: set<nat>)
    requires g.Ok() && g.datastart <= g.size
    ensures Sound(g, EmptyFs(g, inums), map[], {}) && Filled(EmptyFs(g, inums))
  {
    var fs := EmptyFs(g, inums);
    MarkedShape(g, g.datastart);
    forall s ensures At(fs, s) == 0 {
      NothingHeld(g, inums, s);
    }
    forall c: nat | c < g.size ensures BitOf(g, fs.disk, c) <==> c < g.datastart {
      MarkedAt(g, g.datastart, c);
    }
    assert Tree(g, fs, map[]);
  }

  // ---------------------------------------------------------------- a large file

  /** `balloc` of block b followed by the store of its number in slot s. */
  function Allocated(g: Geometry, fs: Fs, b: nat, s: Slot): Fs {
    Put(fs.(disk := ClaimDisk(g, fs.disk, b)), s, b)
  }

  lemma AllocatedSound(g: Geometry, fs: Fs, owner: map<nat, Slot>, b: nat, s: Slot)
    requires Sound(g, fs, owner, owner.Keys) && Filled(fs) && g.datastart <= b < g.size && b !in owner
    requires IsSlot(fs, s) && At(fs, s) == 0 && (s.Entry? ==> At(fs, s.table) != 0)
    ensures var fs' := Allocated(g, fs, b, s);
      && Sound(g, fs', owner[b := s], owner[b := s].Keys) && Filled(fs') && fs'.inodes.Keys == fs.inodes.Keys
      && forall r {:trigger At(fs', r)} :: IsSlot(fs, r) ==> At(fs', r) == if r == s then b else At(fs, r)
  {
    var mid := fs.(disk := ClaimDisk(g, fs.disk, b));
    ClaimKeeps(g, fs, owner, b);
    LinkSound(g, mid, owner, s, b);
    Unfold(g, fs, owner, owner.Keys);
    FilledKept(fs, Allocated(g, fs, b, s));
  }

  /** What `bmap` of block NDIRECT + NINDIRECT makes of a file that uses no double-indirect
      block yet: a table, a table in it, and a data block. */
  lemma LargeFile(g: Geometry, fs: Fs, owner: map<nat, Slot>, n: nat, a: nat, b: nat, c: nat)
    returns (fs': Fs, owner': map<nat, Slot>)
    requires Sound(g, fs, owner, owner.Keys) && Filled(fs) && n in fs.inodes && At(fs, Top(n, NDIRECT + 1)) == 0
    requires g.datastart <= a < b < c < g.size && a !in owner && b !in owner && c !in owner
    ensures Sound(g, fs', owner', owner'.Keys) && Filled(fs') && n in fs'.inodes
    ensures At(fs', Top(n, NDIRECT + 1)) == a && At(fs', DataSlot(n, NDIRECT + NINDIRECT)) == c
  {
    var top := Top(n, NDIRECT + 1);
    var table := Entry(top, 0);
    var data := Entry(table, 0);
    SlotsThere(fs, n);
    FreeNotZero(g, fs, owner);
    assert At(fs, table) == 0 && At(fs, data) == 0;
    var fs1, own1 := Next(g, fs, owner, a, top, table, data);
    var fs2, own2 := Next(g, fs1, own1, b, table, top, data);
    fs', owner' := Next(g, fs2, own2, c, data, top, table);
  }

  /** One allocation, seen from the slot it fills and two others. */
  lemma Next(g: Geometry, fs: Fs, owner: map<nat, Slot>, b: nat, s: Slot, r: Slot, q: Slot)
    returns (fs': Fs, owner': map<nat, Slot>)
    requires Sound(g, fs, owner, owner.Keys) && Filled(fs) && g.datastart <= b < g.size && b !in owner
    requires IsSlot(fs, s) && IsSlot(fs, r) && IsSlot(fs, q) && r != s && q != s
    requires At(fs, s) == 0 && (s.Entry? ==> At(fs, s.table) != 0)
    ensures Sound(g, fs', owner', owner'.Keys) && Filled(fs') && owner' == owner[b := s]
    ensures fs'.inodes.Keys == fs.inodes.Keys && IsSlot(fs', s) && IsSlot(fs', r) && IsSlot(fs', q)
    ensures At(fs', s) == b && At(fs', r) == At(fs, r) && At(fs', q) == At(fs, q)
  {
    AllocatedSound(g, fs, owner, b, s);
    fs', owner' := Allocated(g, fs, b, s), owner[b := s];
  }

  lemma SlotsThere(fs: Fs, n: nat)
    requires n in fs.inodes
    ensures IsSlot(fs, Top(n, NDIRECT + 1)) && IsSlot(fs, Entry(Top(n, NDIRECT + 1), 0))
    ensures IsSlot(fs, Entry(Entry(Top(n, NDIRECT + 1), 0), 0))
    ensures DataSlot(n, NDIRECT + NINDIRECT) == Entry(Entry(Top(n, NDIRECT + 1), 0), 0)
  {
    DataSlotIsSlot(fs, n, NDIRECT + NINDIRECT);
  }

  lemma FreeNotZero(g: Geometry, fs: Fs, owner: map<nat, Slot>)
    requires Sound(g, fs, owner, owner.Keys)
    ensures g.datastart > 0
  {
    Unfold(g, fs, owner, owner.Keys);
  }

  /** A sound volume of five blocks whose one file uses its double-indirect slot. */
  lemma LargeFileWitness() returns (g: Geometry, fs: Fs, owner: map<nat, Slot>)
    ensures Sound(g, fs, owner, owner.Keys) && Filled(fs) && 0 in fs.inodes && At(fs, Top(0, NDIRECT + 1)) != 0
  {
    g := Geometry(5, 1, 2);
    EmptySound(g, {0});
    NothingHeld(g, {0}, Top(0, NDIRECT + 1));
    fs, owner := LargeFile(g, EmptyFs(g, {0}), map[], 0, 2, 3, 4);
  }
}
