/** Files as block trees, on values: which block number each slot of an inode or of an
    indirect block holds, who owns every allocated block, and the bytes of each file. */
module FileTree {
  import opened BlockBytes

  const NDIRECT: nat := 12
  const NADDRS: nat := NDIRECT + 2
  const NDOUBLE: nat := NINDIRECT * NINDIRECT
  const MAXFILE: nat := NDIRECT + NINDIRECT + NDOUBLE

  /** Blocks below `datastart` (boot, super, log, inode and bitmap blocks) are metadata. */
  datatype Geometry = Geometry(size: nat, bmapstart: nat, datastart: nat) {
    ghost predicate Ok() {
      && 0 < datastart && size < 0x1_0000_0000
      && forall b: nat :: b < size ==> Bitmap(b) < datastart && Bitmap(b) < size
    }

    function Bitmap(b: nat): nat {
      b / BPB + bmapstart
    }
  }

  datatype Inode = Inode(addrs: seq<nat>, size: nat)

  datatype Fs = Fs(disk: map<nat, seq<byte>>, inodes: map<nat, Inode>)

  /** A place that can hold a block number: an entry of an inode's `addrs`, or a word of
      the indirect block another slot refers to. */
  datatype Slot = Top(inum: nat, i: nat) | Entry(table: Slot, j: nat)

  function Inum(s: Slot): nat {
    match s
    case Top(n, _) => n
    case Entry(t, _) => Inum(t)
  }

  predicate IsTable(s: Slot) {
    match s
    case Top(_, i) => i == NDIRECT || i == NDIRECT + 1
    case Entry(Top(_, i), _) => i == NDIRECT + 1
    case _ => false
  }

  predicate InReach(s: Slot) {
    match s
    case Top(_, i) => i < NADDRS
    case Entry(t, j) => InReach(t) && IsTable(t) && j < NINDIRECT
  }

  predicate IsSlot(fs: Fs, s: Slot) {
    Inum(s) in fs.inodes && InReach(s)
  }

  /** The block number slot s holds; 0 when it, or a table on the way to it, is missing. */
  function At(fs: Fs, s: Slot): nat {
    match s
    case Top(n, i) => if n in fs.inodes && i < |fs.inodes[n].addrs| then fs.inodes[n].addrs[i] else 0
    case Entry(t, j) =>
      var a := At(fs, t);
      if a != 0 && a in fs.disk && |fs.disk[a]| == BSIZE && j < NINDIRECT then Word(fs.disk[a], j) else 0
  }

  ghost predicate Shaped(g: Geometry, fs: Fs) {
    && g.Ok()
    && (forall b: nat :: b < g.size ==> b in fs.disk && |fs.disk[b]| == BSIZE)
    && (forall n :: n in fs.inodes ==> |fs.inodes[n].addrs| == NADDRS)
  }

  /** `owner` maps each allocated data block to the one slot that holds it. */
  ghost predicate Tree(g: Geometry, fs: Fs, owner: map<nat, Slot>) {
    && Shaped(g, fs)
    && (forall b :: b in owner ==> g.datastart <= b < g.size && IsSlot(fs, owner[b]) && At(fs, owner[b]) == b)
    && (forall s {:trigger At(fs, s)} :: IsSlot(fs, s) && At(fs, s) != 0 ==>
      At(fs, s) in owner && owner[At(fs, s)] == s)
  }

  /** The slot of the bn-th block of file n. */
  function DataSlot(n: nat, bn: nat): Slot {
    if bn < NDIRECT then Top(n, bn)
    else if bn < NDIRECT + NINDIRECT then Entry(Top(n, NDIRECT), bn - NDIRECT)
    else
      var d := bn - NDIRECT - NINDIRECT;
      Entry(Entry(Top(n, NDIRECT + 1), d / NINDIRECT), d % NINDIRECT)
  }

  lemma InumOfDataSlot(n: nat, bn: nat)
    ensures Inum(DataSlot(n, bn)) == n
  {
    var s := DataSlot(n, bn);
    if s.Entry? {
      assert Inum(s) == Inum(s.table);
    }
  }

  lemma DoublePlace(d: nat)
    requires d < NDOUBLE
    ensures d / NINDIRECT < NINDIRECT && d % NINDIRECT < NINDIRECT
  {
  }

  lemma DataSlotIsSlot(fs: Fs, n: nat, bn: nat)
    requires n in fs.inodes && bn < MAXFILE
    ensures IsSlot(fs, DataSlot(n, bn)) && !IsTable(DataSlot(n, bn))
  {
    InumOfDataSlot(n, bn);
    var d := bn - NDIRECT - NINDIRECT;
    if d >= 0 {
      DoublePlace(d);
      assert InReach(Entry(Top(n, NDIRECT + 1), d / NINDIRECT));
    }
  }

  /** Different block numbers of a file are kept in different slots. */
  lemma DataSlotInjective(n: nat, bn: nat, m: nat, cn: nat)
    requires DataSlot(n, bn) == DataSlot(m, cn)
    ensures n == m && bn == cn
  {
    InumOfDataSlot(n, bn);
    InumOfDataSlot(m, cn);
    if bn >= NDIRECT + NINDIRECT {
      var d, e := bn - NDIRECT - NINDIRECT, cn - NDIRECT - NINDIRECT;
      assert DataSlot(m, cn).table.j == d / NINDIRECT == e / NINDIRECT;
      assert DataSlot(m, cn).j == d % NINDIRECT == e % NINDIRECT;
    }
  }

  /** Byte k of file n; a missing block reads as zeros. */
  function FileByte(fs: Fs, n: nat, k: nat): byte {
    var a := At(fs, DataSlot(n, k / BSIZE));
    if a != 0 && a in fs.disk && |fs.disk[a]| == BSIZE then fs.disk[a][k % BSIZE] else 0
  }

  /** Every block of a file up to its size is allocated. */
  ghost predicate Filled(fs: Fs) {
    && (forall n :: n in fs.inodes ==> fs.inodes[n].size <= MAXFILE * BSIZE)
    && forall n, bn: nat {:trigger DataSlot(n, bn)} :: n in fs.inodes && bn * BSIZE < fs.inodes[n].size ==>
      At(fs, DataSlot(n, bn)) != 0
  }

  lemma FilledKept(fs: Fs, fs': Fs)
    requires Filled(fs) && SameSizes(fs, fs')
    requires forall q {:trigger At(fs', q)} :: IsSlot(fs, q) && At(fs, q) != 0 ==> At(fs', q) != 0
    ensures Filled(fs')
  {
    forall n, bn: nat {:trigger DataSlot(n, bn)} | n in fs'.inodes && bn * BSIZE < fs'.inodes[n].size
      ensures At(fs', DataSlot(n, bn)) != 0
    {
      assert At(fs, DataSlot(n, bn)) != 0;
      DataSlotIsSlot(fs, n, bn);
    }
  }

  // ---------------------------------------------------------------- storing a block number

  /** fs after the block number w is stored in slot s. */
  function Put(fs: Fs, s: Slot, w: nat): Fs {
    match s
    case Top(n, i) =>
      if n in fs.inodes && i < |fs.inodes[n].addrs|
      then fs.(inodes := fs.inodes[n := fs.inodes[n].(addrs := fs.inodes[n].addrs[i := w])]) else fs
    case Entry(t, j) =>
      var a := At(fs, t);
      if a in fs.disk && |fs.disk[a]| == BSIZE && j < NINDIRECT
      then fs.(disk := fs.disk[a := SetWord(fs.disk[a], j, w)]) else fs
  }

  /** Block b is free, zeroed, and slot s, empty so far, is where it is going. */
  ghost predicate CanLink(g: Geometry, fs: Fs, owner: map<nat, Slot>, s: Slot, b: nat) {
    && Tree(g, fs, owner) && IsSlot(fs, s) && At(fs, s) == 0
    && (s.Entry? ==> At(fs, s.table) != 0)
    && g.datastart <= b < g.size && b !in owner && fs.disk[b] == Zeros(BSIZE)
  }

  /** Storing b in s changes what s holds, and no other slot. */
  lemma {:induction false} LinkAt(g: Geometry, fs: Fs, owner: map<nat, Slot>, s: Slot, b: nat, r: Slot)
    requires CanLink(g, fs, owner, s, b) && IsSlot(fs, r)
    ensures At(Put(fs, s, b), r) == if r == s then b else At(fs, r)
  {
    match r
    case Top(_, _) =>
    case Entry(t, j) =>
      LinkAt(g, fs, owner, s, b, t);
      LinkEntry(g, fs, owner, s, b, t, j);
  }

  lemma LinkEntry(g: Geometry, fs: Fs, owner: map<nat, Slot>, s: Slot, b: nat, t: Slot, j: nat)
    requires CanLink(g, fs, owner, s, b) && IsSlot(fs, Entry(t, j))
      && At(Put(fs, s, b), t) == if t == s then b else At(fs, t)
    ensures At(Put(fs, s, b), Entry(t, j)) == if Entry(t, j) == s then b else At(fs, Entry(t, j))
  {
    if t == s {
      WordOfZeros(j);
    } else if s.Entry? && At(fs, t) != 0 {
      LinkOther(g, fs, owner, s, b, t, j);
    }
  }

  /** Only entries of the table that b is stored in are stored in that table. */
  lemma LinkOther(g: Geometry, fs: Fs, owner: map<nat, Slot>, s: Slot, b: nat, t: Slot, j: nat)
    requires CanLink(g, fs, owner, s, b) && IsSlot(fs, Entry(t, j)) && s.Entry? && t != s && At(fs, t) != 0
    requires At(Put(fs, s, b), t) == At(fs, t)
    ensures At(Put(fs, s, b), Entry(t, j)) == if Entry(t, j) == s then b else At(fs, Entry(t, j))
  {
    var p, a := At(fs, s.table), At(fs, t);
    assert owner[p] == s.table && owner[a] == t;
    WordLinked(fs.disk, p, s.j, b, a, j);
  }

  lemma WordLinked(disk: map<nat, seq<byte>>, p: nat, i: nat, b: nat, a: nat, j: nat)
    requires p in disk && a in disk && |disk[p]| == BSIZE && |disk[a]| == BSIZE && i < NINDIRECT && j < NINDIRECT
      && b < 0x1_0000_0000
    ensures Word(disk[p := SetWord(disk[p], i, b)][a], j) == if a == p && i == j then b else Word(disk[a], j)
  {
    WordStored(disk[p], i, b, j);
  }

  /** Every byte of every file reads the same. */
  ghost predicate SameBytes(fs: Fs, fs': Fs) {
    forall n, k: nat {:trigger FileByte(fs', n, k)} ::
      n in fs.inodes && k < MAXFILE * BSIZE ==> FileByte(fs', n, k) == FileByte(fs, n, k)
  }

  ghost predicate SameSizes(fs: Fs, fs': Fs) {
    && fs'.inodes.Keys == fs.inodes.Keys
    && forall n :: n in fs.inodes ==> fs'.inodes[n].size == fs.inodes[n].size
  }

  lemma LinkShape(g: Geometry, fs: Fs, owner: map<nat, Slot>, s: Slot, b: nat)
    requires CanLink(g, fs, owner, s, b)
    ensures Shaped(g, Put(fs, s, b)) && SameSizes(fs, Put(fs, s, b))
    ensures forall c: nat :: c < g.size && (s.Entry? ==> c != At(fs, s.table)) ==> Put(fs, s, b).disk[c] == fs.disk[c]
  {
  }

  lemma LinkByte(g: Geometry, fs: Fs, owner: map<nat, Slot>, s: Slot, b: nat, n: nat, k: nat)
    requires CanLink(g, fs, owner, s, b) && n in fs.inodes && k < MAXFILE * BSIZE
    ensures FileByte(Put(fs, s, b), n, k) == FileByte(fs, n, k)
  {
    var r := DataSlot(n, k / BSIZE);
    DataSlotIsSlot(fs, n, k / BSIZE);
    LinkAt(g, fs, owner, s, b, r);
    LinkShape(g, fs, owner, s, b);
    if s.Entry? {
      var p := At(fs, s.table);
      assert owner[p] == s.table;
      assert At(fs, r) != 0 ==> owner[At(fs, r)] == r;
    }
  }

  lemma LinkSlots(g: Geometry, fs: Fs, owner: map<nat, Slot>, s: Slot, b: nat)
    requires CanLink(g, fs, owner, s, b)
    ensures forall r :: IsSlot(Put(fs, s, b), r) == IsSlot(fs, r)
    ensures forall r {:trigger At(Put(fs, s, b), r)} ::
      IsSlot(fs, r) ==> At(Put(fs, s, b), r) == if r == s then b else At(fs, r)
  {
    var fs' := Put(fs, s, b);
    LinkShape(g, fs, owner, s, b);
    forall r | IsSlot(fs, r) ensures At(fs', r) == if r == s then b else At(fs, r) {
      LinkAt(g, fs, owner, s, b, r);
    }
  }

  lemma LinkTree(g: Geometry, fs: Fs, fs': Fs, owner: map<nat, Slot>, s: Slot, b: nat)
    requires Tree(g, fs, owner) && Shaped(g, fs') && IsSlot(fs, s) && At(fs, s) == 0
    requires g.datastart <= b < g.size && b !in owner
    requires forall r :: IsSlot(fs', r) == IsSlot(fs, r)
    requires forall r {:trigger At(fs', r)} :: IsSlot(fs, r) ==> At(fs', r) == if r == s then b else At(fs, r)
    ensures Tree(g, fs', owner[b := s])
  {
    var owner' := owner[b := s];
    forall c | c in owner' ensures IsSlot(fs', owner'[c]) && At(fs', owner'[c]) == c {
      assert IsSlot(fs, owner'[c]);
    }
    forall r {:trigger At(fs', r)} | IsSlot(fs', r) && At(fs', r) != 0
      ensures At(fs', r) in owner' && owner'[At(fs', r)] == r
    {
      assert r != s ==> At(fs, r) in owner;
    }
  }

  /** Linking a fresh block keeps ownership exact and changes no byte of any file. */
  lemma LinkKeeps(g: Geometry, fs: Fs, owner: map<nat, Slot>, s: Slot, b: nat)
    requires CanLink(g, fs, owner, s, b)
    ensures Tree(g, Put(fs, s, b), owner[b := s])
    ensures forall r {:trigger At(Put(fs, s, b), r)} ::
      IsSlot(fs, r) ==> At(Put(fs, s, b), r) == if r == s then b else At(fs, r)
    ensures SameBytes(fs, Put(fs, s, b)) && SameSizes(fs, Put(fs, s, b))
  {
    LinkSlots(g, fs, owner, s, b);
    LinkShape(g, fs, owner, s, b);
    LinkTree(g, fs, Put(fs, s, b), owner, s, b);
    forall n, k: nat | n in fs.inodes && k < MAXFILE * BSIZE
      ensures FileByte(Put(fs, s, b), n, k) == FileByte(fs, n, k)
    {
      LinkByte(g, fs, owner, s, b, n, k);
    }
  }

  // ---------------------------------------------------------------- writing outside the tables

  /** The two states have the same inodes' addresses and the same tables. */
  ghost predicate SameTables(fs: Fs, fs': Fs, owner: map<nat, Slot>) {
    && fs'.inodes.Keys == fs.inodes.Keys
    && (forall n :: n in fs.inodes ==> fs'.inodes[n].addrs == fs.inodes[n].addrs)
    && forall b :: b in owner && IsTable(owner[b]) ==> b in fs.disk && b in fs'.disk && fs'.disk[b] == fs.disk[b]
  }

  lemma {:induction false} AtKept(g: Geometry, fs: Fs, fs': Fs, owner: map<nat, Slot>, r: Slot)
    requires Tree(g, fs, owner) && SameTables(fs, fs', owner) && IsSlot(fs, r)
    ensures At(fs', r) == At(fs, r)
  {
    match r
    case Top(_, _) =>
    case Entry(t, j) =>
      AtKept(g, fs, fs', owner, t);
      assert At(fs, t) != 0 ==> owner[At(fs, t)] == t;
  }

  lemma TreeKept(g: Geometry, fs: Fs, fs': Fs, owner: map<nat, Slot>)
    requires Tree(g, fs, owner) && SameTables(fs, fs', owner) && Shaped(g, fs')
    ensures Tree(g, fs', owner)
    ensures forall s {:trigger At(fs', s)} :: IsSlot(fs, s) ==> At(fs', s) == At(fs, s)
  {
    forall s | IsSlot(fs, s) ensures At(fs', s) == At(fs, s) {
      AtKept(g, fs, fs', owner, s);
    }
  }

  /** Changing only metadata and free blocks changes no slot and no byte of any file. */
  lemma UnownedWrite(g: Geometry, fs: Fs, fs': Fs, owner: map<nat, Slot>)
    requires Tree(g, fs, owner) && Shaped(g, fs') && fs'.inodes == fs.inodes
    requires forall b :: b in owner ==> fs'.disk[b] == fs.disk[b]
    ensures Tree(g, fs', owner) && SameBytes(fs, fs')
    ensures forall s {:trigger At(fs', s)} :: IsSlot(fs, s) ==> At(fs', s) == At(fs, s)
  {
    TreeKept(g, fs, fs', owner);
    forall n, k: nat | n in fs.inodes && k < MAXFILE * BSIZE ensures FileByte(fs', n, k) == FileByte(fs, n, k) {
      DataSlotIsSlot(fs, n, k / BSIZE);
      assert At(fs', DataSlot(n, k / BSIZE)) == At(fs, DataSlot(n, k / BSIZE));
    }
  }

  /** Writing block bn of file n changes those bytes of that file and nothing else. */
  lemma DataWrite(g: Geometry, fs: Fs, owner: map<nat, Slot>, n: nat, bn: nat, data: seq<byte>)
    requires Tree(g, fs, owner) && n in fs.inodes && bn < MAXFILE && At(fs, DataSlot(n, bn)) != 0 && |data| == BSIZE
    ensures var fs' := fs.(disk := fs.disk[At(fs, DataSlot(n, bn)) := data]);
      && Tree(g, fs', owner)
      && (forall s {:trigger At(fs', s)} :: IsSlot(fs, s) ==> At(fs', s) == At(fs, s))
      && (forall m, k: nat {:trigger FileByte(fs', m, k)} :: m in fs.inodes && k < MAXFILE * BSIZE ==>
        FileByte(fs', m, k) == if m == n && k / BSIZE == bn then data[k % BSIZE] else FileByte(fs, m, k))
  {
    DataSlotIsSlot(fs, n, bn);
    var a := At(fs, DataSlot(n, bn));
    var fs' := fs.(disk := fs.disk[a := data]);
    TreeKept(g, fs, fs', owner);
    forall m, k: nat | m in fs.inodes && k < MAXFILE * BSIZE
      ensures FileByte(fs', m, k) == if m == n && k / BSIZE == bn then data[k % BSIZE] else FileByte(fs, m, k)
    {
      var r := DataSlot(m, k / BSIZE);
      DataSlotIsSlot(fs, m, k / BSIZE);
      assert At(fs', r) == At(fs, r);
      if At(fs, r) == a {
        DataSlotInjective(n, bn, m, k / BSIZE);
      }
    }
  }

  // ---------------------------------------------------------------- dropping a tree

  /** Slot s is top or is reached through it. */
  predicate Under(s: Slot, top: Slot) {
    s == top || (s.Entry? && Under(s.table, top))
  }

  function Without(owner: map<nat, Slot>, top: Slot): map<nat, Slot> {
    map b | b in owner && !Under(owner[b], top) :: owner[b]
  }

  lemma {:induction false} UnlinkAt(fs: Fs, top: Slot, r: Slot)
    requires top.Top? && IsSlot(fs, r) && IsSlot(fs, top)
    requires forall n :: n in fs.inodes ==> |fs.inodes[n].addrs| == NADDRS
    ensures At(Put(fs, top, 0), r) == if Under(r, top) then 0 else At(fs, r)
  {
    match r
    case Top(_, _) =>
    case Entry(t, _) => UnlinkAt(fs, top, t);
  }

  /** Clearing an inode's slot gives up exactly the blocks reached through it. */
  lemma UnlinkKeeps(g: Geometry, fs: Fs, owner: map<nat, Slot>, top: Slot)
    requires Tree(g, fs, owner) && top.Top? && IsSlot(fs, top)
    ensures Tree(g, Put(fs, top, 0), Without(owner, top))
    ensures forall r {:trigger At(Put(fs, top, 0), r)} ::
      IsSlot(fs, r) ==> At(Put(fs, top, 0), r) == if Under(r, top) then 0 else At(fs, r)
  {
    var fs' := Put(fs, top, 0);
    forall r | IsSlot(fs, r) ensures At(fs', r) == if Under(r, top) then 0 else At(fs, r) {
      UnlinkAt(fs, top, r);
    }
  }

  /** A slot of another file, or of another slot of the same inode, is not under top. */
  lemma {:induction false} UnderInum(s: Slot, top: Slot)
    requires Under(s, top)
    ensures Inum(s) == Inum(top)
  {
    if s != top {
      UnderInum(s.table, top);
    }
  }

  // ---------------------------------------------------------------- the free bitmap

  predicate BitOf(g: Geometry, disk: map<nat, seq<byte>>, b: nat) {
    var m := g.Bitmap(b);
    m in disk && |disk[m]| == BSIZE && Bit(disk[m], b % BPB)
  }

  /** The bitmap marks exactly the metadata blocks and the blocks of `owned`. */
  ghost predicate Bits(g: Geometry, disk: map<nat, seq<byte>>, owned: set<nat>) {
    forall b: nat {:trigger BitOf(g, disk, b)} :: b < g.size ==> (BitOf(g, disk, b) <==> b < g.datastart || b in owned)
  }

  function BitDisk(g: Geometry, disk: map<nat, seq<byte>>, b: nat, on: bool): map<nat, seq<byte>> {
    var m := g.Bitmap(b);
    if m in disk && |disk[m]| == BSIZE then disk[m := WithBit(disk[m], b % BPB, on)] else disk
  }

  lemma SamePlace(b: nat, c: nat)
    requires b / BPB == c / BPB && b % BPB == c % BPB
    ensures b == c
  {
    assert b == b / BPB * BPB + b % BPB && c == c / BPB * BPB + c % BPB;
  }

  lemma BitAt(g: Geometry, disk: map<nat, seq<byte>>, b: nat, on: bool, c: nat)
    requires g.Bitmap(b) in disk && |disk[g.Bitmap(b)]| == BSIZE
    ensures BitOf(g, BitDisk(g, disk, b, on), c) <==> (if b == c then on else BitOf(g, disk, c))
  {
    if g.Bitmap(b) == g.Bitmap(c) {
      BitStored(disk[g.Bitmap(b)], b % BPB, on, c % BPB);
      if b % BPB == c % BPB {
        SamePlace(b, c);
      }
    }
  }

  lemma BitsStored(g: Geometry, disk: map<nat, seq<byte>>, owned: set<nat>, b: nat, on: bool)
    requires forall b: nat :: b < g.size ==> b in disk && |disk[b]| == BSIZE
    requires g.Ok() && Bits(g, disk, owned) && g.datastart <= b < g.size
    ensures Bits(g, BitDisk(g, disk, b, on), if on then owned + {b} else owned - {b})
  {
    forall c: nat | c < g.size
      ensures BitOf(g, BitDisk(g, disk, b, on), c) <==> (if b == c then on else BitOf(g, disk, c))
    {
      BitAt(g, disk, b, on, c);
    }
  }

  /** The disk after balloc marks block b and zeroes it. */
  function ClaimDisk(g: Geometry, disk: map<nat, seq<byte>>, b: nat): map<nat, seq<byte>> {
    BitDisk(g, disk, b, true)[b := Zeros(BSIZE)]
  }

  /** Ownership is exact and the bitmap marks the metadata and the blocks of `used`; the
      verifier unfolds this only where `Key` is mentioned. */
  ghost predicate Sound(g: Geometry, fs: Fs, owner: map<nat, Slot>, used: set<nat>) {
    forall k: int {:trigger Key(k)} :: Key(k) ==> Tree(g, fs, owner) && Bits(g, fs.disk, used)
  }

  ghost predicate Key(k: int) {
    true
  }

  lemma Unfold(g: Geometry, fs: Fs, owner: map<nat, Slot>, used: set<nat>)
    requires Sound(g, fs, owner, used)
    ensures Tree(g, fs, owner) && Bits(g, fs.disk, used)
  {
    assert Key(0);
  }

  ghost predicate SameSlots(fs: Fs, fs': Fs) {
    forall s {:trigger At(fs', s)} :: IsSlot(fs, s) ==> At(fs', s) == At(fs, s)
  }

  /** A slot that bmap looks at lies in an inode or in a table block. */
  lemma SlotRoom(g: Geometry, fs: Fs, owner: map<nat, Slot>, used: set<nat>, s: Slot)
    requires Sound(g, fs, owner, used) && IsSlot(fs, s) && (s.Entry? ==> At(fs, s.table) != 0)
    ensures s.Top? ==> s.i < |fs.inodes[s.inum].addrs|
    ensures s.Entry? ==> At(fs, s.table) in fs.disk && |fs.disk[At(fs, s.table)]| == BSIZE
  {
    Unfold(g, fs, owner, used);
    if s.Entry? {
      assert At(fs, s.table) in owner;
    }
  }

  lemma BitmapRead(g: Geometry, fs: Fs, owner: map<nat, Slot>, used: set<nat>, b: nat)
    requires Sound(g, fs, owner, used) && b < g.size
    ensures b in fs.disk && g.Bitmap(b) in fs.disk && |fs.disk[g.Bitmap(b)]| == BSIZE
    ensures g.datastart > 0
    ensures Bit(fs.disk[g.Bitmap(b)], b % BPB) <==> b < g.datastart || b in used
  {
    Unfold(g, fs, owner, used);
    assert BitOf(g, fs.disk, b) <==> b < g.datastart || b in used;
  }

  lemma ClaimKeeps(g: Geometry, fs: Fs, owner: map<nat, Slot>, b: nat)
    requires Sound(g, fs, owner, owner.Keys) && g.datastart <= b < g.size && b !in owner
    ensures var fs' := fs.(disk := ClaimDisk(g, fs.disk, b));
      && Sound(g, fs', owner, owner.Keys + {b}) && SameBytes(fs, fs') && SameSlots(fs, fs')
  {
    Unfold(g, fs, owner, owner.Keys);
    var fs' := fs.(disk := ClaimDisk(g, fs.disk, b));
    BitsStored(g, fs.disk, owner.Keys, b, true);
    forall c: nat | c < g.size ensures BitOf(g, fs'.disk, c) == BitOf(g, BitDisk(g, fs.disk, b, true), c) {
      assert g.Bitmap(c) < g.datastart;
    }
    UnownedWrite(g, fs, fs', owner);
  }

  /** Linking the block balloc has just returned into slot s. */
  lemma LinkSound(g: Geometry, fs: Fs, owner: map<nat, Slot>, s: Slot, b: nat)
    requires Sound(g, fs, owner, owner.Keys + {b}) && IsSlot(fs, s) && At(fs, s) == 0
    requires s.Entry? ==> At(fs, s.table) != 0
    requires g.datastart <= b < g.size && b !in owner && b in fs.disk && fs.disk[b] == Zeros(BSIZE)
    ensures var fs' := Put(fs, s, b);
      && Sound(g, fs', owner[b := s], owner[b := s].Keys) && SameBytes(fs, fs') && SameSizes(fs, fs')
      && forall r {:trigger At(fs', r)} :: IsSlot(fs, r) ==> At(fs', r) == if r == s then b else At(fs, r)
  {
    Unfold(g, fs, owner, owner.Keys + {b});
    LinkKeeps(g, fs, owner, s, b);
    LinkShape(g, fs, owner, s, b);
    var fs' := Put(fs, s, b);
    assert owner[b := s].Keys == owner.Keys + {b};
    forall c: nat | c < g.size ensures BitOf(g, fs'.disk, c) == BitOf(g, fs.disk, c) {
      assert g.Bitmap(c) < g.datastart;
      if s.Entry? {
        assert At(fs, s.table) in owner;
      }
    }
  }

  lemma DataWriteSound(g: Geometry, fs: Fs, owner: map<nat, Slot>, n: nat, bn: nat, data: seq<byte>)
    requires Sound(g, fs, owner, owner.Keys) && n in fs.inodes && bn < MAXFILE
    requires At(fs, DataSlot(n, bn)) != 0 && |data| == BSIZE
    ensures var fs' := fs.(disk := fs.disk[At(fs, DataSlot(n, bn)) := data]);
      && Sound(g, fs', owner, owner.Keys) && SameSlots(fs, fs') && SameSizes(fs, fs')
      && (forall m, k: nat {:trigger FileByte(fs', m, k)} :: m in fs.inodes && k < MAXFILE * BSIZE ==>
        FileByte(fs', m, k) == if m == n && k / BSIZE == bn then data[k % BSIZE] else FileByte(fs, m, k))
  {
    Unfold(g, fs, owner, owner.Keys);
    DataWrite(g, fs, owner, n, bn, data);
    DataSlotIsSlot(fs, n, bn);
    var a := At(fs, DataSlot(n, bn));
    var fs' := fs.(disk := fs.disk[a := data]);
    forall c: nat | c < g.size ensures BitOf(g, fs'.disk, c) == BitOf(g, fs.disk, c) {
      assert g.Bitmap(c) < g.datastart <= a;
    }
  }

  function Resize(fs: Fs, n: nat, size: nat): Fs
    requires n in fs.inodes
  {
    fs.(inodes := fs.inodes[n := fs.inodes[n].(size := size)])
  }

  lemma ResizeSound(g: Geometry, fs: Fs, owner: map<nat, Slot>, used: set<nat>, n: nat, size: nat)
    requires Sound(g, fs, owner, used) && n in fs.inodes
    ensures Sound(g, Resize(fs, n, size), owner, used) && SameBytes(fs, Resize(fs, n, size))
    ensures SameSlots(fs, Resize(fs, n, size))
  {
    Unfold(g, fs, owner, used);
    var fs' := Resize(fs, n, size);
    TreeKept(g, fs, fs', owner);
    forall m, k: nat | m in fs.inodes && k < MAXFILE * BSIZE ensures FileByte(fs', m, k) == FileByte(fs, m, k) {
      DataSlotIsSlot(fs, m, k / BSIZE);
      assert At(fs', DataSlot(m, k / BSIZE)) == At(fs, DataSlot(m, k / BSIZE));
    }
  }

  // ---------------------------------------------------------------- freeing blocks

  lemma FreeSound(g: Geometry, fs: Fs, owner: map<nat, Slot>, used: set<nat>, b: nat)
    requires Sound(g, fs, owner, used) && g.datastart <= b < g.size
    ensures Sound(g, fs.(disk := BitDisk(g, fs.disk, b, false)), owner, used - {b})
    ensures SameBytes(fs, fs.(disk := BitDisk(g, fs.disk, b, false)))
    ensures SameSlots(fs, fs.(disk := BitDisk(g, fs.disk, b, false)))
  {
    Unfold(g, fs, owner, used);
    BitsStored(g, fs.disk, used, b, false);
    assert g.Bitmap(b) < g.datastart;
    UnownedWrite(g, fs, fs.(disk := BitDisk(g, fs.disk, b, false)), owner);
  }

  /** What a slot holds is a data block that this slot owns. */
  lemma OwnerOf(g: Geometry, fs: Fs, owner: map<nat, Slot>, used: set<nat>, s: Slot)
    requires Sound(g, fs, owner, used) && IsSlot(fs, s) && At(fs, s) != 0
    ensures At(fs, s) in owner && owner[At(fs, s)] == s && g.datastart <= At(fs, s) < g.size
    ensures At(fs, s) in fs.disk && |fs.disk[At(fs, s)]| == BSIZE
  {
    Unfold(g, fs, owner, used);
  }

  /** Every byte of every file but n reads the same. */
  ghost predicate OtherBytes(fs: Fs, fs': Fs, n: nat) {
    forall m, k: nat {:trigger FileByte(fs', m, k)} ::
      m in fs.inodes && m != n && k < MAXFILE * BSIZE ==> FileByte(fs', m, k) == FileByte(fs, m, k)
  }

  lemma UnlinkSound(g: Geometry, fs: Fs, owner: map<nat, Slot>, used: set<nat>, top: Slot)
    requires Sound(g, fs, owner, used) && top.Top? && IsSlot(fs, top)
    ensures var fs' := Put(fs, top, 0);
      && Sound(g, fs', Without(owner, top), used) && SameSizes(fs, fs') && OtherBytes(fs, fs', top.inum)
      && forall r {:trigger At(fs', r)} :: IsSlot(fs, r) ==> At(fs', r) == if Under(r, top) then 0 else At(fs, r)
  {
    Unfold(g, fs, owner, used);
    UnlinkKeeps(g, fs, owner, top);
    var fs' := Put(fs, top, 0);
    forall m, k: nat | m in fs.inodes && m != top.inum && k < MAXFILE * BSIZE
      ensures FileByte(fs', m, k) == FileByte(fs, m, k)
    {
      var r := DataSlot(m, k / BSIZE);
      DataSlotIsSlot(fs, m, k / BSIZE);
      InumOfDataSlot(m, k / BSIZE);
      if Under(r, top) {
        UnderInum(r, top);
      }
      assert At(fs', r) == At(fs, r);
    }
  }

  /** Which of the inode's slots leads to s. */
  function Root(s: Slot): nat {
    match s
    case Top(_, i) => i
    case Entry(t, _) => Root(t)
  }

  lemma {:induction false} UnderRoot(s: Slot, n: nat, i: nat)
    ensures Under(s, Top(n, i)) <==> Inum(s) == n && Root(s) == i
  {
    if s.Entry? {
      UnderRoot(s.table, n, i);
    }
  }

  /** The blocks that the first j entries of table t refer to. */
  function EntryBlocks(owner: map<nat, Slot>, t: Slot, j: nat): set<nat> {
    set b | b in owner && owner[b].Entry? && owner[b].table == t && owner[b].j < j
  }

  lemma EntryBlocksStep(g: Geometry, fs: Fs, owner: map<nat, Slot>, used: set<nat>, t: Slot, j: nat)
    requires Sound(g, fs, owner, used) && IsSlot(fs, Entry(t, j))
    ensures var a := At(fs, Entry(t, j));
      EntryBlocks(owner, t, j + 1) == EntryBlocks(owner, t, j) + if a == 0 then {} else {a}
    ensures At(fs, Entry(t, j)) !in EntryBlocks(owner, t, j)
  {
    Unfold(g, fs, owner, used);
    forall b | b in owner && owner[b] == Entry(t, j) ensures b == At(fs, Entry(t, j)) != 0 {
      assert At(fs, owner[b]) == b;
    }
  }

  /** A slot under an inode's slot is that slot, or an entry of its table when it is the
      single-indirect one. */
  lemma UnderTop(s: Slot, top: Slot)
    requires InReach(s) && top.Top? && top.i <= NDIRECT
    ensures Under(s, top) <==> s == top || (top.i == NDIRECT && s.Entry? && s.table == top)
    ensures s.Entry? && s.table == top ==> top.i == NDIRECT && s.j < NINDIRECT
  {
    if s.Entry? && s.table.Entry? {
      assert Under(s, top) <==> Under(s.table, top);
      assert Under(s.table, top) <==> Under(s.table.table, top);
      assert IsTable(s.table);
    }
  }

  /** The blocks still allocated once those reached through `top` are gone. */
  lemma WithoutKeys(g: Geometry, fs: Fs, owner: map<nat, Slot>, used: set<nat>, top: Slot)
    requires Sound(g, fs, owner, used) && IsSlot(fs, top) && top.Top? && top.i <= NDIRECT
    ensures var entries := if top.i == NDIRECT then EntryBlocks(owner, top, NINDIRECT) else {};
      Without(owner, top).Keys == owner.Keys - entries - {At(fs, top)}
  {
    Unfold(g, fs, owner, used);
    forall b | b in owner
      ensures Under(owner[b], top) <==>
        b == At(fs, top) || (top.i == NDIRECT && owner[b].Entry? && owner[b].table == top && owner[b].j < NINDIRECT)
    {
      UnderTop(owner[b], top);
      assert IsSlot(fs, owner[b]) && At(fs, owner[b]) == b;
    }
  }

  /** A bitmap bit is set exactly when the block is metadata or some slot of some inode
      holds it, and then only one slot does. */
  lemma OwnershipExact(g: Geometry, fs: Fs, owner: map<nat, Slot>, b: nat)
    requires Tree(g, fs, owner) && Bits(g, fs.disk, owner.Keys) && b < g.size && b != 0
    ensures BitOf(g, fs.disk, b) <==> b < g.datastart || exists s :: IsSlot(fs, s) && At(fs, s) == b
    ensures forall r, s :: IsSlot(fs, r) && IsSlot(fs, s) && At(fs, r) == b && At(fs, s) == b ==> r == s
    ensures forall s :: IsSlot(fs, s) && At(fs, s) == b ==> g.datastart <= b
  {
    if b in owner {
      assert IsSlot(fs, owner[b]) && At(fs, owner[b]) == b;
    }
  }
}
