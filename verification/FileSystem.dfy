/** Block allocation, `bmap`, `readi`, `writei` and `itrunc` over the disk and the inodes,
    which they update in place. */
module FileSystem {
  import opened Basics
  import opened BlockBytes
  import opened FileTree
  import opened WriteQuota
  import E = EmptyVolume

  const WORD: nat := 0x1_0000_0000

  /** What `readi` and `writei` return: -1, the bytes moved, or no return at all because
      `balloc` found no free block and panicked. */
  datatype Outcome<T> = Error | Done(value: T) | Panic

  function Min(a: nat, b: nat): nat {
    if a < b then a else b
  }

  /** How many of `left` bytes from offset k on lie in the block of k. */
  function ChunkSize(left: nat, k: nat): (m: nat)
    ensures m <= left && k % BSIZE + m <= BSIZE && (left > 0 ==> m > 0)
  {
    Min(left, BSIZE - k % BSIZE)
  }

  /** The block with its bytes from o on replaced by `bytes`. */
  function Patch(block: seq<byte>, o: nat, bytes: seq<byte>): (b: seq<byte>)
    requires o + |bytes| <= |block|
    ensures |b| == |block|
    ensures forall i :: 0 <= i < |b| ==> b[i] == if o <= i < o + |bytes| then bytes[i - o] else block[i]
  {
    block[..o] + bytes + block[o + |bytes|..]
  }

  class Volume {
    const g: Geometry
    /** The blocks as the buffer cache and the open transaction show them. */
    var disk: map<nat, seq<byte>>
    var inodes: map<nat, Inode>
    ghost var owner: map<nat, Slot>
    ghost var logged: set<Logged>   // what `writei` has passed to `log_write`

    /** The empty volume that `mkfs` begins with. */
    constructor (g: Geometry, inums: set<nat>)
      requires g.Ok() && g.datastart <= g.size
      ensures Valid() && this.g == g && inodes.Keys == inums && owner == map[] && logged == {}
      ensures forall n :: n in inums ==> FileView(State(), n) == []
    {
      this.g := g;
      disk, inodes, owner, logged := E.Marked(g, g.datastart), E.EmptyInodes(inums), map[], {};
      new;
      E.EmptySound(g, inums);
    }

    function State(): Fs
      reads this
    {
      Fs(disk, inodes)
    }

    /** Exact ownership: between operations on a file, and between the steps of one. */
    ghost predicate Owned()
      reads this
    {
      Sound(g, State(), owner, owner.Keys)
    }

    ghost predicate Valid()
      reads this
    {
      Owned() && Filled(State())
    }

    ghost predicate Full()
      reads this
    {
      forall b: nat :: g.datastart <= b < g.size ==> b in owner
    }

    /** The stores of `balloc`: set bit bi of bitmap block m, which is block b's, and zero b. */
    method MarkAndZero(m: nat, bi: nat, b: nat)
      requires m == g.Bitmap(b) && bi == b % BPB && m in disk && |disk[m]| == BSIZE
      modifies `disk, `logged
      ensures disk == ClaimDisk(g, old(disk), b) && logged == old(logged) + {BitmapAt(m)}
    {
      disk := disk[m := disk[m][bi / 8 := disk[m][bi / 8] | Mask(bi % 8)]];
      logged := logged + {BitmapAt(m)};
      disk := disk[b := Zeros(BSIZE)];
    }

    /** The inner loop of `balloc`: the first clear bit among those of blocks b onwards that
        share a bitmap block. */
    method ScanBitmapBlock(b: nat) returns (bi: nat)
      requires Owned() && b % BPB == 0 && b < g.size
      ensures bi <= BPB && forall c: nat :: g.datastart <= c && b <= c < b + bi && c < g.size ==> c in owner
      ensures bi < BPB && b + bi < g.size ==> 0 < g.datastart <= b + bi && b + bi !in owner
      ensures bi < BPB && b + bi < g.size ==> g.Bitmap(b) in disk && |disk[g.Bitmap(b)]| == BSIZE
    {
      var m := g.Bitmap(b);
      bi := 0;
      while bi < BPB && b + bi < g.size
        invariant 0 <= bi <= BPB
        invariant forall c: nat :: g.datastart <= c && b <= c < b + bi && c < g.size ==> c in owner
      {
        BitPlace(b, bi);
        BitmapRead(g, State(), owner, owner.Keys, b + bi);
        if disk[m][bi / 8] & Mask(bi % 8) == 0 {
          return;
        }
        bi := bi + 1;
      }
    }

    /** The lowest free block, now marked in use and zeroed. */
    method Balloc() returns (r: Option<nat>)
      requires Owned()
      modifies `disk, `logged
      ensures r.None? ==> disk == old(disk) && logged == old(logged) && Full()
      ensures r.Some? ==> logged == old(logged) + {BitmapAt(g.Bitmap(r.value))}
      ensures r.Some? ==> 0 < g.datastart <= r.value < g.size && r.value !in owner
      ensures r.Some? ==> r.value in disk && disk[r.value] == Zeros(BSIZE)
      ensures r.Some? ==> Sound(g, State(), owner, owner.Keys + {r.value})
      ensures r.Some? ==> SameBytes(old(State()), State()) && SameSlots(old(State()), State())
      ensures r.Some? ==> forall c: nat :: g.datastart <= c < r.value ==> c in owner
    {
      var b := 0;
      while b < g.size
        invariant b % BPB == 0 && disk == old(disk) && logged == old(logged)
        invariant forall c: nat :: g.datastart <= c < b && c < g.size ==> c in owner
      {
        var bi := ScanBitmapBlock(b);
        if bi < BPB && b + bi < g.size {
          BitPlace(b, bi);
          ClaimKeeps(g, State(), owner, b + bi);
          MarkAndZero(g.Bitmap(b), bi, b + bi);
          return Some(b + bi);
        }
        b := b + BPB;
      }
      return None;
    }

    method StoreSlot(s: Slot, w: nat)
      requires s.Top? ==> s.inum in inodes && s.i < |inodes[s.inum].addrs|
      requires s.Entry? ==> s.j < NINDIRECT && At(State(), s.table) in disk && |disk[At(State(), s.table)]| == BSIZE
      modifies `disk, `inodes, `logged
      ensures State() == Put(old(State()), s, w)
      ensures logged == old(logged) + if s.Entry? then {HeldBy(s.table)} else {}
    {
      match s {
        case Top(n, i) => inodes := inodes[n := inodes[n].(addrs := inodes[n].addrs[i := w])];
        case Entry(t, j) =>
          var a := At(State(), t);
          disk := disk[a := SetWord(disk[a], j, w)];
          logged := logged + {HeldBy(t)};
      }
    }

    /** The block in slot s, allocated first if the slot is empty: the step `bmap` repeats
        at every level. */
    method Fill(s: Slot) returns (r: Option<nat>)
      requires Owned() && IsSlot(State(), s) && (s.Entry? ==> At(State(), s.table) != 0)
      modifies `disk, `inodes, `owner, `logged
      ensures Owned() && Mapped(old(State()), State(), s, r) && (r.None? ==> Full())
      ensures Logs(g, old(owner), old(logged), owner, logged, Prefixes(s), {})
      ensures forall q {:trigger At(State(), q)} :: IsSlot(old(State()), q) && q != s ==>
        At(State(), q) == At(old(State()), q)
    {
      var addr := At(State(), s);
      LogsNothing(g, owner, logged, Prefixes(s), {});
      if addr != 0 {
        return Some(addr);
      }
      r := Balloc();
      if r.None? {
        return;
      }
      logged := logged + {HeldBy(s)};   // the zeroing
      ghost var mid, own := State(), owner;
      Attach(s, r.value);
      FilledSlot(old(State()), mid, State(), s, r.value);
      LogsOne(g, own, old(logged), s, r.value, Prefixes(s), logged);
    }

    /** The new block b goes to slot s, which is empty. */
    method Attach(s: Slot, b: nat)
      requires Sound(g, State(), owner, owner.Keys + {b}) && IsSlot(State(), s) && At(State(), s) == 0
      requires s.Entry? ==> At(State(), s.table) != 0
      requires 0 < g.datastart <= b < g.size && b !in owner && b in disk && disk[b] == Zeros(BSIZE)
      modifies `disk, `inodes, `owner, `logged
      ensures Owned() && owner == old(owner)[b := s]
      ensures logged == old(logged) + if s.Entry? then {HeldBy(s.table)} else {}
      ensures SameBytes(old(State()), State()) && SameSizes(old(State()), State())
      ensures forall q {:trigger At(State(), q)} :: IsSlot(old(State()), q) ==>
        At(State(), q) == if q == s then b else At(old(State()), q)
    {
      ghost var mid := State();
      SlotRoom(g, mid, owner, owner.Keys + {b}, s);
      LinkSound(g, mid, owner, s, b);
      StoreSlot(s, b);
      owner := owner[b := s];
    }

    /** The block that entry j of table t refers to, both allocated where missing. */
    method FillEntry(t: Slot, j: nat) returns (r: Option<nat>)
      requires Owned() && IsSlot(State(), Entry(t, j)) && t.Top?
      modifies `disk, `inodes, `owner, `logged
      ensures Owned() && Mapped(old(State()), State(), Entry(t, j), r) && (r.None? ==> Full())
      ensures Logs(g, old(owner), old(logged), owner, logged, Prefixes(Entry(t, j)), {})
    {
      r := Fill(t);
      ghost var mid, r0, own, log := State(), r, owner, logged;
      UnfoldMapped(old(State()), mid, t, r0);
      LogsWider(g, old(owner), old(logged), own, log, Prefixes(t), {}, Prefixes(Entry(t, j)));
      if r.Some? {
        r := Fill(Entry(t, j));
        MappedTrans(old(State()), mid, State(), t, r0, Entry(t, j), r);
        LogsOn(g, old(owner), old(logged), own, log, owner, logged, Prefixes(Entry(t, j)));
      }
    }

    /** The disk address of block bn of file n, allocating the block and the tables on the
        way to it where they are missing. No byte of any file changes; a block that is
        there already is found without changing anything. None is a panic: bn is out of
        range or no block is free. */
    method Bmap(n: nat, bn: nat) returns (r: Option<nat>)
      requires Owned() && n in inodes
      modifies `disk, `inodes, `owner, `logged
      ensures Owned() && (bn < MAXFILE ==> Mapped(old(State()), State(), DataSlot(n, bn), r))
      ensures Logs(g, old(owner), old(logged), owner, logged, Prefixes(DataSlot(n, bn)), {})
      ensures r.None? ==> bn >= MAXFILE || Full()
      ensures bn >= MAXFILE ==> r.None? && State() == old(State())
    {
      var b := bn;
      if b < NDIRECT {
        r := BmapDirect(n, b);
        return;
      }
      b := b - NDIRECT;
      if b < NINDIRECT {
        r := BmapSingle(n, b);
        return;
      }
      b := b - NINDIRECT;
      if b < NDOUBLE {
        r := BmapDouble(n, b);
        return;
      }
      LogsNothing(g, owner, logged, Prefixes(DataSlot(n, bn)), {});
      return None;
    }

    /** The first branch of `bmap`. */
    method BmapDirect(n: nat, b: nat) returns (r: Option<nat>)
      requires Owned() && n in inodes && b < NDIRECT
      modifies `disk, `inodes, `owner, `logged
      ensures Owned() && Mapped(old(State()), State(), DataSlot(n, b), r) && (r.None? ==> Full())
      ensures Logs(g, old(owner), old(logged), owner, logged, Prefixes(DataSlot(n, b)), {})
    {
      assert DataSlot(n, b) == Top(n, b);
      r := Fill(Top(n, b));
    }

    /** The second branch of `bmap`. */
    method BmapSingle(n: nat, b: nat) returns (r: Option<nat>)
      requires Owned() && n in inodes && b < NINDIRECT
      modifies `disk, `inodes, `owner, `logged
      ensures Owned() && Mapped(old(State()), State(), DataSlot(n, NDIRECT + b), r) && (r.None? ==> Full())
      ensures Logs(g, old(owner), old(logged), owner, logged, Prefixes(DataSlot(n, NDIRECT + b)), {})
    {
      assert DataSlot(n, NDIRECT + b) == Entry(Top(n, NDIRECT), b);
      r := FillEntry(Top(n, NDIRECT), b);
    }

    /** The last branch of `bmap`. */
    method BmapDouble(n: nat, b: nat) returns (r: Option<nat>)
      requires Owned() && n in inodes && b < NDOUBLE
      modifies `disk, `inodes, `owner, `logged
      ensures Owned() && Mapped(old(State()), State(), DataSlot(n, NDIRECT + NINDIRECT + b), r) && (r.None? ==> Full())
      ensures Logs(g, old(owner), old(logged), owner, logged, Prefixes(DataSlot(n, NDIRECT + NINDIRECT + b)), {})
    {
      DoubleSlot(n, b);
      r := FillTwice(n, b / NINDIRECT, b % NINDIRECT, DataSlot(n, NDIRECT + NINDIRECT + b));
    }

    /** The block at place `offset` of the table at place `entry` of the double-indirect
        table, which is slot s, all allocated where missing. */
    method FillTwice(n: nat, entry: nat, offset: nat, ghost s: Slot) returns (r: Option<nat>)
      requires Owned() && n in inodes && entry < NINDIRECT && offset < NINDIRECT
      requires s == Entry(Entry(Top(n, NDIRECT + 1), entry), offset)
      modifies `disk, `inodes, `owner, `logged
      ensures Owned() && Mapped(old(State()), State(), s, r) && (r.None? ==> Full())
      ensures Logs(g, old(owner), old(logged), owner, logged, Prefixes(s), {})
    {
      var t := Entry(Top(n, NDIRECT + 1), entry);
      r := FillEntry(Top(n, NDIRECT + 1), entry);
      ghost var mid, r0, own, log := State(), r, owner, logged;
      UnfoldMapped(old(State()), mid, t, r0);
      LogsWider(g, old(owner), old(logged), own, log, Prefixes(t), {}, Prefixes(s));
      if r.Some? {
        r := Fill(Entry(t, offset));
        MappedTrans(old(State()), mid, State(), t, r0, s, r);
        LogsOn(g, old(owner), old(logged), own, log, owner, logged, Prefixes(s));
      }
    }

    /** One turn of the loop of `readi`: m bytes that lie in one block. */
    method ReadChunk(n: nat, off: nat, m: nat) returns (bytes: seq<byte>)
      requires Valid() && n in inodes && 0 < m && off + m <= inodes[n].size && off % BSIZE + m <= BSIZE
      modifies `disk, `inodes, `owner, `logged
      ensures Valid() && State() == old(State()) && bytes == FileView(State(), n)[off..off + m]
      ensures logged == old(logged)
    {
      FilledAt(State(), n, off);
      var a := Bmap(n, off / BSIZE);
      UnfoldMapped(old(State()), State(), DataSlot(n, off / BSIZE), a);
      NothingNew(g, State(), old(owner), old(logged), owner, logged, Prefixes(DataSlot(n, off / BSIZE)));
      DataRoom(g, State(), owner, n, off / BSIZE);
      BlockView(State(), n, off, m);
      bytes := disk[a.value][off % BSIZE..off % BSIZE + m];
    }

    /** The loop of `readi`. */
    method ReadBlocks(n: nat, off: nat, cnt: nat) returns (dst: seq<byte>)
      requires Valid() && n in inodes && off + cnt <= inodes[n].size
      modifies `disk, `inodes, `owner, `logged
      ensures Valid() && State() == old(State()) && dst == FileView(State(), n)[off..off + cnt]
      ensures logged == old(logged)
    {
      dst := [];
      var tot := 0;
      ghost var fs := State();
      while tot < cnt
        invariant tot <= cnt && State() == fs && Valid() && dst == FileView(fs, n)[off..off + tot]
        invariant logged == old(logged)
        decreases cnt - tot
      {
        var m := ChunkSize(cnt - tot, off + tot);
        var chunk := ReadChunk(n, off + tot, m);
        dst := dst + chunk;
        Glue(FileView(fs, n), off, off + tot, off + tot + m);
        tot := tot + m;
      }
    }

    /** The bytes of file n from off on, as many as asked for and present. Nothing changes:
        every block below the size of the file is there, so `bmap` allocates none. */
    method Readi(n: nat, off: nat, cnt: nat) returns (r: Outcome<seq<byte>>)
      requires Valid() && n in inodes && off < WORD && cnt < WORD
      modifies `disk, `inodes, `owner, `logged
      ensures Valid() && State() == old(State()) && logged == old(logged)
      ensures var f := FileView(State(), n);
        r == if off > |f| || off + cnt >= WORD then Error else Done(f[off..Min(off + cnt, |f|)])
    {
      var size := inodes[n].size;
      if off > size || (off + cnt) % WORD < off {
        return Error;
      }
      var dst := ReadBlocks(n, off, if off + cnt > size then size - off else cnt);
      r := Done(dst);
    }

    /** One turn of the loop of `writei`: bytes that lie in one block. */
    method WriteChunk(n: nat, off: nat, chunk: seq<byte>) returns (ok: bool)
      requires Owned() && n in inodes && off + |chunk| <= MAXFILE * BSIZE && 0 < |chunk| <= BSIZE - off % BSIZE
      modifies `disk, `inodes, `owner, `logged
      ensures Owned() && SameSizes(old(State()), State()) && KeepsBlocks(old(State()), State())
      ensures ok ==> Logs(g, old(owner), old(logged), owner, logged,
                       Prefixes(DataSlot(n, off / BSIZE)), {HeldBy(DataSlot(n, off / BSIZE))})
      ensures !ok ==> Full() && SameBytes(old(State()), State())
      ensures !ok ==> Logs(g, old(owner), old(logged), owner, logged, Prefixes(DataSlot(n, off / BSIZE)), {})
      ensures !ok ==> At(State(), DataSlot(n, off / BSIZE)) == 0
      ensures ok ==> Wrote(old(State()), State(), n, off, chunk) && At(State(), DataSlot(n, off / BSIZE)) != 0
    {
      var a := Bmap(n, off / BSIZE);
      UnfoldMapped(old(State()), State(), DataSlot(n, off / BSIZE), a);
      if a.None? {
        return false;
      }
      ghost var mid := State();
      DataRoom(g, State(), owner, n, off / BSIZE);
      DataSlotIsSlot(State(), n, off / BSIZE);
      var data := Patch(disk[a.value], off % BSIZE, chunk);
      DataWriteSound(g, State(), owner, n, off / BSIZE, data);
      disk := disk[a.value := data];
      ghost var log := logged;
      logged := logged + {HeldBy(DataSlot(n, off / BSIZE))};
      DataLogged(g, old(owner), old(logged), owner, log, n, off / BSIZE);
      PatchWrote(old(State()), mid, State(), n, off, chunk, data);
      return true;
    }

    /** The first tot bytes of src have been written since the state fs0, owner own0 and log
        log0. Unfolded only where `Run` is mentioned. */
    ghost predicate Progress(fs0: Fs, own0: map<nat, Slot>, log0: set<Logged>, n: nat, off: nat, src: seq<byte>,
            tot: nat)
      requires tot <= |src|
      reads this
    {
      forall key: int {:trigger Run(key)} :: Run(key) ==>
        && Owned() && n in inodes && SameSizes(fs0, State()) && KeepsBlocks(fs0, State())
        && Covered(State(), n, off + tot) && Wrote(fs0, State(), n, off, src[..tot])
        && LogsStretch(g, own0, log0, owner, logged, n, off, tot)
        && (0 < tot < |src| ==> (off + tot) % BSIZE == 0)
    }

    /** The loop of `writei`; it stops early only when no block is free. */
    method WriteBlocks(n: nat, off: nat, src: seq<byte>) returns (tot: nat)
      requires Owned() && n in inodes && off + |src| <= MAXFILE * BSIZE && Covered(State(), n, off)
      modifies `disk, `inodes, `owner, `logged
      ensures Owned() && SameSizes(old(State()), State()) && KeepsBlocks(old(State()), State())
      ensures tot == |src| ==> LogsStretch(g, old(owner), old(logged), owner, logged, n, off, tot)
      ensures tot <= |src| && (tot < |src| ==> Full()) && Covered(State(), n, off + tot)
      ensures tot < |src| ==> Stuck(State(), old(owner), owner, n, First(off), Last(off, |src|))
      ensures Wrote(old(State()), State(), n, off, src[..tot])
    {
      ghost var fs0, own0, log0 := State(), owner, logged;
      tot := 0;
      NothingWritten(n, off, src);
      while tot < |src|
        invariant tot <= |src| && Progress(fs0, own0, log0, n, off, src, tot)
      {
        var next := WriteStep(n, off, src, tot, fs0, own0, log0);
        if next == tot {
          return;
        }
        tot := next;
      }
      Written(fs0, own0, log0, n, off, src, tot);
    }

    lemma NothingWritten(n: nat, off: nat, src: seq<byte>)
      requires Owned() && n in inodes && Covered(State(), n, off)
      ensures Progress(State(), owner, logged, n, off, src, 0)
    {
      StretchStarts(g, owner, logged, n, off);
    }

    lemma Written(fs0: Fs, own0: map<nat, Slot>, log0: set<Logged>, n: nat, off: nat, src: seq<byte>, tot: nat)
      requires tot <= |src| && Progress(fs0, own0, log0, n, off, src, tot)
      ensures Owned() && n in inodes && SameSizes(fs0, State()) && KeepsBlocks(fs0, State())
      ensures Covered(State(), n, off + tot) && Wrote(fs0, State(), n, off, src[..tot])
      ensures LogsStretch(g, own0, log0, owner, logged, n, off, tot)
      ensures 0 < tot < |src| ==> (off + tot) % BSIZE == 0
    {
      assert Run(0);
    }

    /** One turn of the loop, with what has been written and logged since it began. */
    method WriteStep(n: nat, off: nat, src: seq<byte>, tot: nat, ghost fs0: Fs, ghost own0: map<nat, Slot>,
            ghost log0: set<Logged>)
      returns (next: nat)
      requires off + |src| <= MAXFILE * BSIZE && tot < |src| && Progress(fs0, own0, log0, n, off, src, tot)
      modifies `disk, `inodes, `owner, `logged
      ensures tot <= next <= |src| && (next > tot ==> Progress(fs0, own0, log0, n, off, src, next))
      ensures next == tot ==> Owned() && SameSizes(fs0, State()) && KeepsBlocks(fs0, State()) && Full()
      ensures next == tot ==> Covered(State(), n, off + tot) && Wrote(fs0, State(), n, off, src[..tot])
      ensures next == tot ==> Stuck(State(), own0, owner, n, First(off), Last(off, |src|))
    {
      Written(fs0, own0, log0, n, off, src, tot);
      ghost var own, log := owner, logged;
      var m := WriteTurn(n, off, src, tot, fs0);
      next := tot + m;
      if m > 0 {
        Further(fs0, own0, log0, own, log, n, off, src, tot, next);
      } else {
        StretchStuck(g, own0, log0, own, log, owner, logged, State(), n, off, tot, |src|);
      }
    }

    lemma Further(fs0: Fs, own0: map<nat, Slot>, log0: set<Logged>, own: map<nat, Slot>, log: set<Logged>,
            n: nat, off: nat, src: seq<byte>, tot: nat, next: nat)
      requires tot < next <= |src| && Owned() && n in inodes && SameSizes(fs0, State()) && KeepsBlocks(fs0, State())
      requires Covered(State(), n, off + next) && Wrote(fs0, State(), n, off, src[..next])
      requires LogsStretch(g, own0, log0, own, log, n, off, tot) && (tot > 0 ==> (off + tot) % BSIZE == 0)
      requires next - tot == ChunkSize(|src| - tot, off + tot)
      requires var s := DataSlot(n, (off + tot) / BSIZE); Logs(g, own, log, owner, logged, Prefixes(s), {HeldBy(s)})
      ensures Progress(fs0, own0, log0, n, off, src, next)
    {
      StretchGrows(g, own0, log0, own, log, owner, logged, n, off, tot, next);
      Reached(fs0, own0, log0, n, off, src, next);
    }

    lemma Reached(fs0: Fs, own0: map<nat, Slot>, log0: set<Logged>, n: nat, off: nat, src: seq<byte>, tot: nat)
      requires tot <= |src| && Owned() && n in inodes && SameSizes(fs0, State()) && KeepsBlocks(fs0, State())
      requires Covered(State(), n, off + tot) && Wrote(fs0, State(), n, off, src[..tot])
      requires LogsStretch(g, own0, log0, owner, logged, n, off, tot)
      requires 0 < tot < |src| ==> (off + tot) % BSIZE == 0
      ensures Progress(fs0, own0, log0, n, off, src, tot)
    {
    }

    /** One turn of the loop: the bytes written, none when no block is free. */
    method WriteTurn(n: nat, off: nat, src: seq<byte>, tot: nat, ghost st0: Fs) returns (m: nat)
      requires Owned() && n in inodes && off + |src| <= MAXFILE * BSIZE && tot < |src|
      requires SameSizes(st0, State()) && KeepsBlocks(st0, State())
      requires Covered(State(), n, off + tot) && Wrote(st0, State(), n, off, src[..tot])
      modifies `disk, `inodes, `owner, `logged
      ensures Owned() && SameSizes(st0, State()) && KeepsBlocks(st0, State()) && n in inodes
      ensures m > 0 ==> m == ChunkSize(|src| - tot, off + tot)
      ensures var s := DataSlot(n, (off + tot) / BSIZE);
        && (m > 0 ==> Logs(g, old(owner), old(logged), owner, logged, Prefixes(s), {HeldBy(s)}))
        && (m == 0 ==> Logs(g, old(owner), old(logged), owner, logged, Prefixes(s), {}) && At(State(), s) == 0)
      ensures tot + m <= |src| && (m == 0 ==> Full()) && Covered(State(), n, off + tot + m)
      ensures Wrote(st0, State(), n, off, src[..tot + m])
    {
      ghost var mid := State();
      m := ChunkSize(|src| - tot, off + tot);
      var ok := WriteChunk(n, off + tot, src[tot..tot + m]);
      if !ok {
        m := 0;
      }
      WroteMore(st0, mid, State(), n, off, src, tot, m);
      CoveredMore(mid, State(), n, off + tot, m);
    }

    /** The end of `writei`: the size grows when the write went past it. */
    method Grow(n: nat, off: nat)
      requires Valid() && n in inodes && off <= MAXFILE * BSIZE && Covered(State(), n, off)
      modifies `inodes, `logged
      ensures Valid() && SameBytes(old(State()), State()) && inodes.Keys == old(inodes.Keys)
      ensures logged == old(logged) + if off > old(inodes[n].size) then {InodeOf(n)} else {}
      ensures forall m :: m in inodes ==>
        inodes[m].size == if m == n && off > old(inodes[n].size) then off else old(inodes[m].size)
    {
      if off > inodes[n].size {
        ResizeSound(g, State(), owner, owner.Keys, n, off);
        FilledGrown(State(), n, off);
        inodes := inodes[n := inodes[n].(size := off)];
        logged := logged + {InodeOf(n)};
      }
    }

    /** The contents of file n become the old contents with src written over them, or past
        their end, from off on; every other file is as before. It panics if and only if fewer
        blocks are free than slots on the way are empty; then a first part of src has been
        written and no size has changed. */
    method Writei(n: nat, off: nat, src: seq<byte>) returns (r: Outcome<nat>)
      requires Valid() && n in inodes && off < WORD && |src| < WORD
      modifies `disk, `inodes, `owner, `logged
      ensures Valid() && inodes.Keys == old(inodes.Keys)
      ensures r.Done? ==> logged == old(logged) + WillLog(g, old(State()), old(owner), n, off, |src|)
      ensures r.Error? ==> logged == old(logged)
      ensures r.Error? <==> off > old(inodes[n].size) || off + |src| > MAXFILE * BSIZE
      ensures r.Error? ==> State() == old(State())
      ensures r.Done? ==> r.value == |src| && FileView(State(), n) == Spliced(FileView(old(State()), n), off, src)
      ensures r.Done? ==> forall m :: m in inodes && m != n ==> FileView(State(), m) == FileView(old(State()), m)
      ensures r.Done? && |src| > 0 && off + |src| > (NDIRECT + NINDIRECT) * BSIZE ==>
        At(State(), Top(n, NDIRECT + 1)) != 0
      ensures !r.Error? ==>
        (r.Panic? <==> |Missing(old(State()), n, First(off), Last(off, |src|))| > |Free(g, old(owner))|)
      ensures r.Panic? ==> Full() && SameSizes(old(State()), State())
      ensures r.Panic? ==> exists tot :: 0 <= tot < |src| && Wrote(old(State()), State(), n, off, src[..tot])
    {
      var cnt := |src|;
      if off > inodes[n].size || (off + cnt) % WORD < off {
        return Error;
      }
      if off + cnt > MAXFILE * BSIZE {
        return Error;
      }
      var ok := WriteSource(n, off, src);
      LargeFileHeld(State(), n);
      r := if ok then Done(cnt) else Panic;
    }

    /** The loop of `writei`, with what the log has got told from the state before it. */
    method WriteLogged(n: nat, off: nat, src: seq<byte>) returns (tot: nat)
      requires Owned() && n in inodes && off + |src| <= MAXFILE * BSIZE && Covered(State(), n, off)
      modifies `disk, `inodes, `owner, `logged
      ensures Owned() && SameSizes(old(State()), State()) && KeepsBlocks(old(State()), State())
      ensures tot == |src| ==>
        logged == old(logged) + Touched(g, old(State()), old(owner), n, First(off), Last(off, |src|))
      ensures tot == |src| <==>
        |Missing(old(State()), n, First(off), Last(off, |src|))| <= |Free(g, old(owner))|
      ensures tot <= |src| && (tot < |src| ==> Full()) && Covered(State(), n, off + tot)
      ensures Wrote(old(State()), State(), n, off, src[..tot])
    {
      tot := WriteBlocks(n, off, src);
      if tot == |src| {
        StretchLogged(g, old(State()), old(owner), old(logged), State(), owner, logged, n, off, tot);
      } else {
        assert Free(g, owner) == {};
        StretchFits(off, |src|);
        StuckShort(g, old(State()), old(owner), State(), owner, n, First(off), Last(off, |src|));
      }
    }

    /** `writei` once its arguments have been accepted. */
    method WriteSource(n: nat, off: nat, src: seq<byte>) returns (ok: bool)
      requires Valid() && n in inodes && off <= inodes[n].size && off + |src| <= MAXFILE * BSIZE
      modifies `disk, `inodes, `owner, `logged
      ensures Valid() && inodes.Keys == old(inodes.Keys)
      ensures ok <==> |Missing(old(State()), n, First(off), Last(off, |src|))| <= |Free(g, old(owner))|
      ensures ok ==> logged == old(logged) + WillLog(g, old(State()), old(owner), n, off, |src|)
      ensures ok ==> FileView(State(), n) == Spliced(FileView(old(State()), n), off, src)
      ensures ok ==> forall m :: m in inodes && m != n ==> FileView(State(), m) == FileView(old(State()), m)
      ensures ok && |src| > 0 ==> inodes[n].size >= off + |src|
      ensures !ok ==> Full() && SameSizes(old(State()), State())
      ensures !ok ==> exists tot :: 0 <= tot < |src| && Wrote(old(State()), State(), n, off, src[..tot])
    {
      var cnt := |src|;
      ghost var fs := State();
      CoveredStart(fs, n, off);
      var tot := WriteLogged(n, off, src);
      FilledKept(fs, State());
      if tot < cnt {
        return false;
      }
      assert src[..cnt] == src;
      FinishWrite(n, off, src, fs);
      WithInode(g, fs, old(owner), n, off, cnt, old(logged), logged);
      ok := true;
    }

    /** The end of `writei`, all of src having been written since state fs. */
    method FinishWrite(n: nat, off: nat, src: seq<byte>, ghost fs: Fs)
      requires Valid() && Filled(fs) && n in inodes && n in fs.inodes && off <= fs.inodes[n].size
      requires off + |src| <= MAXFILE * BSIZE && Covered(State(), n, off + |src|)
      requires Wrote(fs, State(), n, off, src) && SameSizes(fs, State())
      modifies `inodes, `logged
      ensures Valid() && inodes.Keys == old(inodes.Keys)
      ensures logged == old(logged) + if |src| > 0 && off + |src| > fs.inodes[n].size then {InodeOf(n)} else {}
      ensures FileView(State(), n) == Spliced(FileView(fs, n), off, src)
      ensures forall m :: m in inodes && m != n ==> FileView(State(), m) == FileView(fs, m)
      ensures |src| > 0 ==> inodes[n].size >= off + |src|
    {
      ghost var mid := State();
      if |src| > 0 {
        Grow(n, off + |src|);
      }
      WroteView(fs, mid, State(), n, off, src);
    }

    /** Clears the bitmap bit of block b; false is the panic "freeing free block". */
    method Bfree(b: nat, ghost used: set<nat>) returns (ok: bool)
      requires Sound(g, State(), owner, used) && g.datastart <= b < g.size
      modifies `disk
      ensures ok <==> b in used
      ensures if ok then Sound(g, State(), owner, used - {b}) else State() == old(State())
      ensures SameBytes(old(State()), State()) && SameSlots(old(State()), State())
    {
      var m, bi := g.Bitmap(b), b % BPB;
      BitmapRead(g, State(), owner, used, b);
      if disk[m][bi / 8] & Mask(bi % 8) == 0 {
        return false;
      }
      FreeSound(g, State(), owner, used, b);
      disk := disk[m := disk[m][bi / 8 := disk[m][bi / 8] & !Mask(bi % 8)]];
      return true;
    }

    /** Gives up slot top, whose blocks are all marked free already. */
    method Unlink(top: Slot, ghost freed: set<nat>)
      requires top.Top? && IsSlot(State(), top) && top.i <= NDIRECT && Sound(g, State(), owner, owner.Keys - freed)
      requires freed == (if top.i == NDIRECT then EntryBlocks(owner, top, NINDIRECT) else {}) + {At(State(), top)}
      modifies `inodes, `owner
      ensures Owned() && Dropped(old(State()), State(), top) && owner == Without(old(owner), top)
    {
      SlotRoom(g, State(), owner, owner.Keys - freed, top);
      WithoutKeys(g, State(), owner, owner.Keys - freed, top);
      UnlinkSound(g, State(), owner, owner.Keys - freed, top);
      assert Without(owner, top).Keys == owner.Keys - freed;
      inodes := inodes[top.inum := inodes[top.inum].(addrs := inodes[top.inum].addrs[top.i := 0])];
      owner := Without(owner, top);
    }

    /** One turn of the first loop of `itrunc`. */
    method DropDirect(n: nat, i: nat) returns (ok: bool)
      requires Owned() && n in inodes && i < NDIRECT
      modifies `disk, `inodes, `owner
      ensures ok && Owned() && Dropped(old(State()), State(), Top(n, i))
    {
      var a := At(State(), Top(n, i));
      ok := true;
      if a == 0 {
        NothingThere(g, State(), owner, Top(n, i));
      } else {
        OwnerOf(g, State(), owner, owner.Keys, Top(n, i));
        ok := Bfree(a, owner.Keys);
        ghost var mid := State();
        Unlink(Top(n, i), {a});
        DroppedAfter(old(State()), mid, State(), Top(n, i));
      }
    }

    /** One turn of the second loop of `itrunc`: the block entry j refers to, if any, is in
        use still and is freed now. */
    method FreeEntry(t: Slot, j: nat) returns (ok: bool)
      requires IsSlot(State(), Entry(t, j)) && Sound(g, State(), owner, owner.Keys - EntryBlocks(owner, t, j))
      modifies `disk
      ensures ok && Sound(g, State(), owner, owner.Keys - EntryBlocks(owner, t, j + 1))
      ensures SameBytes(old(State()), State()) && SameSlots(old(State()), State())
    {
      ok := true;
      ghost var used := owner.Keys - EntryBlocks(owner, t, j);
      var a := At(State(), Entry(t, j));
      EntryBlocksStep(g, State(), owner, used, t, j);
      assert owner.Keys - EntryBlocks(owner, t, j + 1) == if a == 0 then used else used - {a};
      if a != 0 {
        OwnerOf(g, State(), owner, used, Entry(t, j));
        ok := Bfree(a, used);
      }
    }

    /** The second loop of `itrunc`: every block the indirect block refers to is freed, once. */
    method FreeEntries(t: Slot) returns (ok: bool)
      requires Owned() && IsSlot(State(), t) && IsTable(t)
      modifies `disk
      ensures ok && Sound(g, State(), owner, owner.Keys - EntryBlocks(owner, t, NINDIRECT))
      ensures SameBytes(old(State()), State()) && SameSlots(old(State()), State())
    {
      ok := true;
      var j := 0;
      assert owner.Keys - EntryBlocks(owner, t, 0) == owner.Keys;
      while j < NINDIRECT
        invariant j <= NINDIRECT && ok && Sound(g, State(), owner, owner.Keys - EntryBlocks(owner, t, j))
        invariant SameBytes(old(State()), State()) && SameSlots(old(State()), State())
      {
        ghost var mid := State();
        ok := FreeEntry(t, j);
        SameTrans(old(State()), mid, State());
        j := j + 1;
      }
    }

    method DropIndirect(n: nat) returns (ok: bool)
      requires Owned() && n in inodes
      modifies `disk, `inodes, `owner
      ensures ok && Owned() && Dropped(old(State()), State(), Top(n, NDIRECT))
    {
      var t := Top(n, NDIRECT);
      var a := At(State(), t);
      ok := true;
      if a == 0 {
        NothingThere(g, State(), owner, t);
      } else {
        ok := FreeEntries(t);
        ghost var freed := EntryBlocks(owner, t, NINDIRECT);
        ghost var mid := State();
        OwnerOf(g, mid, owner, owner.Keys - freed, t);
        var last := Bfree(a, owner.Keys - freed);
        ok := ok && last;
        SameTrans(old(State()), mid, State());
        mid := State();
        assert owner.Keys - freed - {a} == owner.Keys - (freed + {a});
        Unlink(t, freed + {a});
        DroppedAfter(old(State()), mid, State(), t);
      }
    }

    /** The loop over the direct blocks. */
    method DropDirects(n: nat) returns (ok: bool)
      requires Owned() && n in inodes
      modifies `disk, `inodes, `owner
      ensures ok && Owned() && Emptied(old(State()), State(), n, NDIRECT)
    {
      ok := true;
      var i := 0;
      while i < NDIRECT
        invariant i <= NDIRECT && ok && Owned() && Emptied(old(State()), State(), n, i)
      {
        ghost var mid := State();
        ok := DropDirect(n, i);
        EmptiedMore(old(State()), mid, State(), n, i);
        i := i + 1;
      }
    }

    /** Truncation never panics on a free block, empties the file and gives up every block
        of its direct and single-indirect slots; all other slots and files are as before. */
    method Itrunc(n: nat) returns (ok: bool)
      requires Valid() && n in inodes
      modifies `disk, `inodes, `owner
      ensures ok && Valid() && inodes.Keys == old(inodes.Keys) && FileView(State(), n) == []
      ensures forall s {:trigger At(State(), s)} :: IsSlot(State(), s) ==>
        At(State(), s) == if Inum(s) == n && Root(s) <= NDIRECT then 0 else At(old(State()), s)
      ensures forall m :: m in inodes && m != n ==> FileView(State(), m) == FileView(old(State()), m)
      ensures (forall b :: b in owner ==> Inum(owner[b]) != n) <==> At(old(State()), Top(n, NDIRECT + 1)) == 0
    {
      ok := DropDirects(n);
      ghost var mid := State();
      ok := DropIndirect(n);
      EmptiedMore(old(State()), mid, State(), n, NDIRECT);
      mid := State();
      ResizeSound(g, mid, owner, owner.Keys, n, 0);
      inodes := inodes[n := inodes[n].(size := 0)];
      EmptiedViews(old(State()), mid, State(), n);
      TruncationComplete(g, old(State()), State(), owner, n);
    }
  }

  /** A write that takes a file past its single-indirect range, then a truncation: the
      blocks under the double-indirect slot stay allocated to the empty file. */
  method TruncateLargeFile(volume: Volume, n: nat, off: nat, src: seq<byte>) returns (r: Outcome<nat>)
    requires volume.Valid() && n in volume.inodes && 0 < |src| < WORD && off < WORD
    requires off + |src| > (NDIRECT + NINDIRECT) * BSIZE
    modifies volume
    ensures volume.Valid() && n in volume.inodes
    ensures r.Done? ==> FileView(volume.State(), n) == [] && exists b :: b in volume.owner && Inum(volume.owner[b]) == n
  {
    r := volume.Writei(n, off, src);
    if r.Done? {
      var _ := volume.Itrunc(n);
    }
  }

  /** A file that reaches past its single-indirect range uses its double-indirect slot. */
  lemma LargeFileHeld(fs: Fs, n: nat)
    requires Filled(fs) && n in fs.inodes
    ensures fs.inodes[n].size > (NDIRECT + NINDIRECT) * BSIZE ==> At(fs, Top(n, NDIRECT + 1)) != 0
  {
    var s := DataSlot(n, NDIRECT + NINDIRECT);
    if fs.inodes[n].size > (NDIRECT + NINDIRECT) * BSIZE {
      assert At(fs, s) != 0;
      RootHeld(fs, s);
      InumOfDataSlot(n, NDIRECT + NINDIRECT);
      assert Root(s) == Root(s.table) == NDIRECT + 1;
    }
  }

  lemma WroteMore(fs: Fs, mid: Fs, fs': Fs, n: nat, off: nat, src: seq<byte>, tot: nat, m: nat)
    requires tot + m <= |src| && mid.inodes.Keys == fs.inodes.Keys
    requires Wrote(fs, mid, n, off, src[..tot])
    requires if m == 0 then SameBytes(mid, fs') else Wrote(mid, fs', n, off + tot, src[tot..tot + m])
    ensures Wrote(fs, fs', n, off, src[..tot + m])
  {
    forall c, k: nat {:trigger FileByte(fs', c, k)} | c in fs.inodes && k < MAXFILE * BSIZE
      ensures FileByte(fs', c, k)
        == if c == n && off <= k < off + tot + m then src[..tot + m][k - off] else FileByte(fs, c, k)
    {
      assert FileByte(mid, c, k) == if c == n && off <= k < off + tot then src[..tot][k - off] else FileByte(fs, c, k);
    }
  }

  lemma CoveredMore(mid: Fs, fs': Fs, n: nat, k: nat, m: nat)
    requires n in mid.inodes && k + m <= MAXFILE * BSIZE && Covered(mid, n, k) && KeepsBlocks(mid, fs')
    requires k % BSIZE + m <= BSIZE && (m > 0 ==> At(fs', DataSlot(n, k / BSIZE)) != 0)
    ensures Covered(fs', n, k + m)
  {
    forall bn: nat {:trigger DataSlot(n, bn)} | bn * BSIZE < k + m ensures At(fs', DataSlot(n, bn)) != 0 {
      if bn * BSIZE < k {
        assert At(mid, DataSlot(n, bn)) != 0;
        DataSlotIsSlot(mid, n, bn);
      } else {
        assert bn == k / BSIZE;
      }
    }
  }

  lemma FilledGrown(fs: Fs, n: nat, size: nat)
    requires Filled(fs) && n in fs.inodes && Covered(fs, n, size) && size <= MAXFILE * BSIZE
    requires SameSlots(fs, Resize(fs, n, size))
    ensures Filled(Resize(fs, n, size))
  {
    var fs' := Resize(fs, n, size);
    forall m, bn: nat {:trigger DataSlot(m, bn)} | m in fs'.inodes && bn * BSIZE < fs'.inodes[m].size
      ensures At(fs', DataSlot(m, bn)) != 0
    {
      assert At(fs, DataSlot(m, bn)) != 0;
      DataSlotIsSlot(fs, m, bn);
    }
  }

  lemma {:induction false} BytesEqual(fs: Fs, fs': Fs, m: nat, k: nat)
    requires forall i: nat :: i < k ==> FileByte(fs', m, i) == FileByte(fs, m, i)
    ensures Bytes(fs', m, k) == Bytes(fs, m, k)
  {
    if k > 0 {
      BytesEqual(fs, fs', m, k - 1);
    }
  }

  lemma OtherView(fs: Fs, fs': Fs, m: nat)
    requires Filled(fs) && m in fs.inodes && m in fs'.inodes && fs'.inodes[m].size == fs.inodes[m].size
    requires forall k: nat {:trigger FileByte(fs', m, k)} :: k < MAXFILE * BSIZE ==>
      FileByte(fs', m, k) == FileByte(fs, m, k)
    ensures FileView(fs', m) == FileView(fs, m)
  {
    BytesEqual(fs, fs', m, fs.inodes[m].size);
  }

  lemma SplicedView(fs: Fs, fs': Fs, n: nat, off: nat, src: seq<byte>)
    requires Filled(fs) && n in fs.inodes && n in fs'.inodes && off <= fs.inodes[n].size
      && off + |src| <= MAXFILE * BSIZE
    requires Wrote(fs, fs', n, off, src)
    requires fs'.inodes[n].size == if off + |src| > fs.inodes[n].size then off + |src| else fs.inodes[n].size
    ensures FileView(fs', n) == Spliced(FileView(fs, n), off, src)
  {
    var f, f' := FileView(fs, n), FileView(fs', n);
    var g := Spliced(f, off, src);
    forall i: nat | i < |f'| ensures f'[i] == g[i] {
      BytesAt(fs', n, |f'|, i);
      if i < |f| {
        BytesAt(fs, n, |f|, i);
      }
    }
  }

  lemma WroteView(fs: Fs, mid: Fs, fs': Fs, n: nat, off: nat, src: seq<byte>)
    requires Filled(fs) && n in fs.inodes && off <= fs.inodes[n].size && off + |src| <= MAXFILE * BSIZE
    requires Wrote(fs, mid, n, off, src) && SameSizes(fs, mid) && SameBytes(mid, fs')
    requires fs'.inodes.Keys == fs.inodes.Keys && forall m :: m in fs.inodes ==>
      fs'.inodes[m].size == if m == n && off + |src| > fs.inodes[n].size then off + |src| else fs.inodes[m].size
    ensures FileView(fs', n) == Spliced(FileView(fs, n), off, src)
    ensures forall m :: m in fs.inodes && m != n ==> FileView(fs', m) == FileView(fs, m)
  {
    assert Wrote(fs, fs', n, off, src) by {
      forall m, k: nat {:trigger FileByte(fs', m, k)} | m in fs.inodes && k < MAXFILE * BSIZE
        ensures FileByte(fs', m, k) == FileByte(mid, m, k)
      {
      }
    }
    SplicedView(fs, fs', n, off, src);
    forall m | m in fs.inodes && m != n ensures FileView(fs', m) == FileView(fs, m) {
      OtherView(fs, fs', m);
    }
  }

  ghost predicate Run(key: int) {
    true
  }

  /** Every block of file n that begins before byte k is there. */
  ghost predicate Covered(fs: Fs, n: nat, k: nat) {
    forall bn: nat {:trigger DataSlot(n, bn)} :: bn * BSIZE < k ==> At(fs, DataSlot(n, bn)) != 0
  }

  lemma CoveredStart(fs: Fs, n: nat, k: nat)
    requires Filled(fs) && n in fs.inodes && k <= fs.inodes[n].size
    ensures Covered(fs, n, k)
  {
  }

  /** f with src written from off on. */
  function Spliced(f: seq<byte>, off: nat, src: seq<byte>): seq<byte>
    requires off <= |f|
  {
    f[..off] + src + if off + |src| < |f| then f[off + |src|..] else []
  }

  /** Nothing is held under top any more; other slots and other files are as before. */
  ghost predicate Dropped(fs: Fs, fs': Fs, top: Slot) {
    && SameSizes(fs, fs') && OtherBytes(fs, fs', Inum(top))
    && forall r {:trigger At(fs', r)} :: IsSlot(fs, r) ==> At(fs', r) == if Under(r, top) then 0 else At(fs, r)
  }

  lemma DroppedAfter(fs: Fs, mid: Fs, fs': Fs, top: Slot)
    requires SameBytes(fs, mid) && SameSlots(fs, mid) && mid.inodes == fs.inodes && Dropped(mid, fs', top)
    ensures Dropped(fs, fs', top)
  {
    forall r {:trigger At(fs', r)} | IsSlot(fs, r) ensures At(fs', r) == if Under(r, top) then 0 else At(fs, r) {
      assert At(mid, r) == At(fs, r);
    }
    forall m, k: nat {:trigger FileByte(fs', m, k)} | m in fs.inodes && m != Inum(top) && k < MAXFILE * BSIZE
      ensures FileByte(fs', m, k) == FileByte(fs, m, k)
    {
      assert FileByte(mid, m, k) == FileByte(fs, m, k);
    }
  }

  lemma NothingThere(g: Geometry, fs: Fs, owner: map<nat, Slot>, top: Slot)
    requires Sound(g, fs, owner, owner.Keys) && IsSlot(fs, top) && top.Top? && top.i <= NDIRECT && At(fs, top) == 0
    ensures Dropped(fs, fs, top) && Without(owner, top) == owner
  {
    Unfold(g, fs, owner, owner.Keys);
    forall r {:trigger At(fs, r)} | IsSlot(fs, r) && Under(r, top) ensures At(fs, r) == 0 {
      UnderTop(r, top);
    }
    forall b | b in owner ensures !Under(owner[b], top) {
      assert At(fs, owner[b]) == b;
    }
  }

  lemma SameTrans(f0: Fs, f1: Fs, f2: Fs)
    requires SameBytes(f0, f1) && SameSlots(f0, f1) && SameBytes(f1, f2) && SameSlots(f1, f2) && f1.inodes == f0.inodes
    ensures SameBytes(f0, f2) && SameSlots(f0, f2)
  {
    forall r {:trigger At(f2, r)} | IsSlot(f0, r) ensures At(f2, r) == At(f0, r) {
      assert At(f1, r) == At(f0, r);
    }
    forall m, k: nat {:trigger FileByte(f2, m, k)} | m in f0.inodes && k < MAXFILE * BSIZE
      ensures FileByte(f2, m, k) == FileByte(f0, m, k)
    {
      assert FileByte(f1, m, k) == FileByte(f0, m, k);
    }
  }

  /** The first i slots of inode n hold nothing; other slots and files are as before. */
  ghost predicate Emptied(fs: Fs, fs': Fs, n: nat, i: nat) {
    && SameSizes(fs, fs') && OtherBytes(fs, fs', n)
    && forall r {:trigger At(fs', r)} :: IsSlot(fs, r) ==>
      At(fs', r) == if Inum(r) == n && Root(r) < i then 0 else At(fs, r)
  }

  lemma EmptiedMore(fs: Fs, mid: Fs, fs': Fs, n: nat, i: nat)
    requires Emptied(fs, mid, n, i) && Dropped(mid, fs', Top(n, i))
    ensures Emptied(fs, fs', n, i + 1)
  {
    forall r {:trigger At(fs', r)} | IsSlot(fs, r)
      ensures At(fs', r) == if Inum(r) == n && Root(r) < i + 1 then 0 else At(fs, r)
    {
      UnderRoot(r, n, i);
      assert At(mid, r) == if Inum(r) == n && Root(r) < i then 0 else At(fs, r);
    }
    forall m, k: nat {:trigger FileByte(fs', m, k)} | m in fs.inodes && m != n && k < MAXFILE * BSIZE
      ensures FileByte(fs', m, k) == FileByte(fs, m, k)
    {
      assert FileByte(mid, m, k) == FileByte(fs, m, k);
    }
  }

  lemma EmptiedViews(fs: Fs, mid: Fs, fs': Fs, n: nat)
    requires Filled(fs) && n in fs.inodes && Emptied(fs, mid, n, NDIRECT + 1) && fs' == Resize(mid, n, 0)
    requires SameBytes(mid, fs') && SameSlots(mid, fs')
    ensures Filled(fs') && FileView(fs', n) == []
    ensures forall m :: m in fs.inodes && m != n ==> FileView(fs', m) == FileView(fs, m)
    ensures forall s {:trigger At(fs', s)} :: IsSlot(fs', s) ==>
      At(fs', s) == if Inum(s) == n && Root(s) <= NDIRECT then 0 else At(fs, s)
  {
    forall s {:trigger At(fs', s)} | IsSlot(fs', s)
      ensures At(fs', s) == if Inum(s) == n && Root(s) <= NDIRECT then 0 else At(fs, s)
    {
      assert At(fs', s) == At(mid, s);
    }
    forall m | m in fs.inodes && m != n ensures FileView(fs', m) == FileView(fs, m) {
      forall k: nat {:trigger FileByte(fs', m, k)} | k < MAXFILE * BSIZE
        ensures FileByte(fs', m, k) == FileByte(fs, m, k)
      {
        assert FileByte(fs', m, k) == FileByte(mid, m, k);
      }
      OtherView(fs, fs', m);
    }
    forall m, bn: nat {:trigger DataSlot(m, bn)} | m in fs'.inodes && bn * BSIZE < fs'.inodes[m].size
      ensures At(fs', DataSlot(m, bn)) != 0
    {
      assert At(fs, DataSlot(m, bn)) != 0;
      DataSlotIsSlot(fs, m, bn);
      InumOfDataSlot(m, bn);
    }
  }

  /** Blocks that were there still are. */
  ghost predicate KeepsBlocks(fs: Fs, fs': Fs) {
    forall q {:trigger At(fs', q)} :: IsSlot(fs, q) && At(fs, q) != 0 ==> At(fs', q) != 0
  }

  /** The bytes of file n from off on are those of src; every other byte is as before. */
  ghost predicate Wrote(fs: Fs, fs': Fs, n: nat, off: nat, src: seq<byte>) {
    forall m, k: nat {:trigger FileByte(fs', m, k)} :: m in fs.inodes && k < MAXFILE * BSIZE ==>
      FileByte(fs', m, k) == if m == n && off <= k < off + |src| then src[k - off] else FileByte(fs, m, k)
  }

  lemma PatchWrote(fs: Fs, mid: Fs, fs': Fs, n: nat, off: nat, chunk: seq<byte>, data: seq<byte>)
    requires n in fs.inodes && SameBytes(fs, mid) && mid.inodes.Keys == fs.inodes.Keys && off % BSIZE + |chunk| <= BSIZE
    requires var a := At(mid, DataSlot(n, off / BSIZE));
      a != 0 && a in mid.disk && |mid.disk[a]| == BSIZE && data == Patch(mid.disk[a], off % BSIZE, chunk)
    requires forall m, k: nat {:trigger FileByte(fs', m, k)} :: m in mid.inodes && k < MAXFILE * BSIZE ==>
      FileByte(fs', m, k) == if m == n && k / BSIZE == off / BSIZE then data[k % BSIZE] else FileByte(mid, m, k)
    ensures Wrote(fs, fs', n, off, chunk)
  {
    forall m, k: nat {:trigger FileByte(fs', m, k)} | m in fs.inodes && k < MAXFILE * BSIZE
      ensures FileByte(fs', m, k) == if m == n && off <= k < off + |chunk| then chunk[k - off] else FileByte(fs, m, k)
    {
      assert FileByte(mid, m, k) == FileByte(fs, m, k);
      WithinBlock(off, k, |chunk|);
    }
  }

  lemma WithinBlock(off: nat, k: nat, m: nat)
    requires off % BSIZE + m <= BSIZE
    ensures off <= k < off + m <==> k / BSIZE == off / BSIZE && off % BSIZE <= k % BSIZE < off % BSIZE + m
    ensures k / BSIZE == off / BSIZE ==> k % BSIZE - off % BSIZE == k - off
  {
  }

  /** The contents of file n. */
  function FileView(fs: Fs, n: nat): (f: seq<byte>)
    requires n in fs.inodes
    ensures |f| == fs.inodes[n].size
  {
    Bytes(fs, n, fs.inodes[n].size)
  }

  /** The first k bytes of file n. */
  function Bytes(fs: Fs, n: nat, k: nat): (f: seq<byte>)
    ensures |f| == k
  {
    if k == 0 then [] else Bytes(fs, n, k - 1) + [FileByte(fs, n, k - 1)]
  }

  lemma {:induction false} BytesAt(fs: Fs, n: nat, k: nat, i: nat)
    requires i < k
    ensures Bytes(fs, n, k)[i] == FileByte(fs, n, i)
  {
    if i < k - 1 {
      BytesAt(fs, n, k - 1, i);
    }
  }

  lemma DoubleSlot(n: nat, b: nat)
    requires b < NDOUBLE
    ensures b / NINDIRECT < NINDIRECT && b % NINDIRECT < NINDIRECT
    ensures DataSlot(n, NDIRECT + NINDIRECT + b) == Entry(Entry(Top(n, NDIRECT + 1), b / NINDIRECT), b % NINDIRECT)
  {
    DoublePlace(b);
  }

  lemma FilledAt(fs: Fs, n: nat, k: nat)
    requires Filled(fs) && n in fs.inodes && k < fs.inodes[n].size
    ensures k / BSIZE < MAXFILE && At(fs, DataSlot(n, k / BSIZE)) != 0
  {
    assert k / BSIZE * BSIZE <= k;
  }

  lemma DataRoom(g: Geometry, fs: Fs, owner: map<nat, Slot>, n: nat, bn: nat)
    requires Sound(g, fs, owner, owner.Keys) && n in fs.inodes && bn < MAXFILE && At(fs, DataSlot(n, bn)) != 0
    ensures At(fs, DataSlot(n, bn)) in fs.disk && |fs.disk[At(fs, DataSlot(n, bn))]| == BSIZE
  {
    Unfold(g, fs, owner, owner.Keys);
    DataSlotIsSlot(fs, n, bn);
  }

  /** A stretch of a file inside one block is a stretch of that block. */
  lemma BlockView(fs: Fs, n: nat, k: nat, m: nat)
    requires n in fs.inodes && k + m <= fs.inodes[n].size && k % BSIZE + m <= BSIZE
    requires var a := At(fs, DataSlot(n, k / BSIZE)); a != 0 && a in fs.disk && |fs.disk[a]| == BSIZE
    ensures FileView(fs, n)[k..k + m] == fs.disk[At(fs, DataSlot(n, k / BSIZE))][k % BSIZE..k % BSIZE + m]
  {
    var here := FileView(fs, n)[k..k + m];
    var there := fs.disk[At(fs, DataSlot(n, k / BSIZE))][k % BSIZE..k % BSIZE + m];
    forall i | 0 <= i < m ensures here[i] == there[i] {
      BytesAt(fs, n, fs.inodes[n].size, k + i);
      SameBlock(k, i);
    }
  }

  lemma Glue(f: seq<byte>, a: nat, b: nat, c: nat)
    requires a <= b <= c <= |f|
    ensures f[a..b] + f[b..c] == f[a..c]
  {
  }

  lemma SameBlock(k: nat, i: nat)
    requires k % BSIZE + i < BSIZE
    ensures (k + i) / BSIZE == k / BSIZE && (k + i) % BSIZE == k % BSIZE + i
  {
  }

  lemma FilledSlot(fs: Fs, mid: Fs, fs': Fs, s: Slot, b: nat)
    requires IsSlot(fs, s) && At(fs, s) == 0 && b != 0 && mid.inodes == fs.inodes
    requires SameBytes(fs, mid) && SameSlots(fs, mid) && SameBytes(mid, fs') && SameSizes(mid, fs')
    requires forall q {:trigger At(fs', q)} :: IsSlot(mid, q) ==> At(fs', q) == if q == s then b else At(mid, q)
    ensures Mapped(fs, fs', s, Some(b))
    ensures forall q {:trigger At(fs', q)} :: IsSlot(fs, q) && q != s ==> At(fs', q) == At(fs, q)
  {
    forall q {:trigger At(fs', q)} | IsSlot(fs, q) ensures At(fs', q) == if q == s then b else At(fs, q) {
      assert At(mid, q) == At(fs, q);
    }
    forall n, k: nat {:trigger FileByte(fs', n, k)} | n in fs.inodes && k < MAXFILE * BSIZE
      ensures FileByte(fs', n, k) == FileByte(fs, n, k)
    {
      assert FileByte(mid, n, k) == FileByte(fs, n, k);
    }
  }

  lemma MappedTrans(fs: Fs, mid: Fs, fs': Fs, t: Slot, r0: Option<nat>, s: Slot, r: Option<nat>)
    requires Mapped(fs, mid, t, r0) && Mapped(mid, fs', s, r) && s.Entry? && s.table == t
    ensures Mapped(fs, fs', s, r)
  {
    UnfoldMapped(fs, mid, t, r0);
    UnfoldMapped(mid, fs', s, r);
    ExtendsTrans(fs, mid, fs');
  }

  lemma ExtendsTrans(f0: Fs, f1: Fs, f2: Fs)
    requires Extends(f0, f1) && Extends(f1, f2)
    ensures Extends(f0, f2)
  {
    forall q {:trigger At(f2, q)} | IsSlot(f0, q) && At(f0, q) != 0 ensures At(f2, q) == At(f0, q) {
      assert At(f1, q) == At(f0, q);
    }
    forall n, k: nat {:trigger FileByte(f2, n, k)} | n in f0.inodes && k < MAXFILE * BSIZE
      ensures FileByte(f2, n, k) == FileByte(f0, n, k)
    {
      assert FileByte(f1, n, k) == FileByte(f0, n, k);
    }
  }

  /** r is what slot s holds in fs', which is fs unless s was empty there, and no byte has
      changed. The verifier unfolds this only where `Seen` is mentioned. */
  ghost predicate Mapped(fs: Fs, fs': Fs, s: Slot, r: Option<nat>) {
    forall k: int {:trigger Seen(k)} :: Seen(k) ==>
      && Extends(fs, fs')
      && (if r.None? then At(fs', s) == 0 else r.value == At(fs', s) != 0)
      && (At(fs, s) != 0 ==> fs' == fs)
  }

  ghost predicate Seen(k: int) {
    true
  }

  lemma UnfoldMapped(fs: Fs, fs': Fs, s: Slot, r: Option<nat>)
    requires Mapped(fs, fs', s, r)
    ensures Extends(fs, fs') && (if r.None? then At(fs', s) == 0 else r.value == At(fs', s) != 0)
    ensures At(fs, s) != 0 ==> fs' == fs
  {
    assert Seen(0);
  }

  /** fs' has all the blocks of fs, and every file reads the same in both. */
  ghost predicate Extends(fs: Fs, fs': Fs) {
    && SameBytes(fs, fs') && SameSizes(fs, fs')
    && forall q {:trigger At(fs', q)} :: IsSlot(fs, q) && At(fs, q) != 0 ==> At(fs', q) == At(fs, q)
  }

  lemma BitPlace(b: nat, bi: nat)
    requires b % BPB == 0 && bi < BPB
    ensures (b + bi) / BPB == b / BPB && (b + bi) % BPB == bi
  {
  }

  /** What is written is what is read back at the same offset, and the bytes around it
      are those the file had. */
  lemma ReadBack(f: seq<byte>, off: nat, src: seq<byte>)
    requires off <= |f|
    ensures var f' := Spliced(f, off, src);
      && |f'| == (if off + |src| > |f| then off + |src| else |f|)
      && f'[off..Min(off + |src|, |f'|)] == src
      && forall i :: 0 <= i < |f| && !(off <= i < off + |src|) ==> f'[i] == f[i]
  {
  }

  lemma {:induction false} RootHeld(fs: Fs, s: Slot)
    requires At(fs, s) != 0
    ensures At(fs, Top(Inum(s), Root(s))) != 0
  {
    if s.Entry? {
      RootHeld(fs, s.table);
    }
  }

  /** `itrunc` does not visit the double-indirect slot: it releases all blocks of the file
      exactly when that slot was empty. */
  lemma TruncationComplete(g: Geometry, fs: Fs, fs': Fs, owner: map<nat, Slot>, n: nat)
    requires Sound(g, fs', owner, owner.Keys) && n in fs.inodes && n in fs'.inodes
    requires forall s {:trigger At(fs', s)} :: IsSlot(fs', s) ==>
      At(fs', s) == if Inum(s) == n && Root(s) <= NDIRECT then 0 else At(fs, s)
    ensures (forall b :: b in owner ==> Inum(owner[b]) != n) <==> At(fs, Top(n, NDIRECT + 1)) == 0
  {
    Unfold(g, fs', owner, owner.Keys);
    var top := Top(n, NDIRECT + 1);
    assert IsSlot(fs', top) && At(fs', top) == At(fs, top);
    if At(fs, top) != 0 {
      assert Inum(owner[At(fs', top)]) == n;
    }
    forall b | b in owner && Inum(owner[b]) == n ensures At(fs, top) != 0 {
      var s := owner[b];
      assert At(fs', s) == b;
      RootHeld(fs, s);
      RootBound(s);
    }
  }

  lemma {:induction false} RootBound(s: Slot)
    requires InReach(s)
    ensures Root(s) < NADDRS
  {
    if s.Entry? {
      RootBound(s.table);
    }
  }
}
