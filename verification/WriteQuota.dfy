/** What one `writei` passes to `log_write`, told from the state before it: the data blocks of
    the stretch, the tables on the way to them that are new or get a new entry, and the
    bitmap blocks of the lowest free blocks. `filewrite` cuts a write into stretches so that
    these and the inode's block stay within MAXOPBLOCKS. */
module WriteQuota {
  import opened BlockBytes
  import opened FileTree
  import LogDisk

  /** A block given to `log_write`: a bitmap block, the block a slot holds, or the one on disk
      with an inode. */
  datatype Logged = BitmapAt(m: nat) | HeldBy(s: Slot) | InodeOf(n: nat)

  // ---------------------------------------------------------------- logging as it happens

  /** What the allocations that turn own0 into own1 have logged: the bitmap blocks, the new
      blocks, which are zeroed, and the tables that got an entry. */
  ghost function AllocLog(g: Geometry, own0: map<nat, Slot>, own1: map<nat, Slot>): set<Logged> {
    BitmapLog(g, own1.Keys - own0.Keys) + HeldLog(NewSlots(own0, own1)) + TableLog(NewSlots(own0, own1))
  }

  /** The slots that have got a block. */
  ghost function NewSlots(own0: map<nat, Slot>, own1: map<nat, Slot>): set<Slot> {
    set b | b in own1 && b !in own0 :: own1[b]
  }

  /** The bitmap blocks of some blocks. */
  ghost function BitmapLog(g: Geometry, bs: set<nat>): set<Logged> {
    set b | b in bs :: BitmapAt(g.Bitmap(b))
  }

  ghost function HeldLog(slots: set<Slot>): set<Logged> {
    set s | s in slots :: HeldBy(s)
  }

  /** The tables of some slots. */
  ghost function TableLog(slots: set<Slot>): set<Logged> {
    set s | s in slots && s.Entry? :: HeldBy(s.table)
  }

  /** From own0 to own1 free blocks, always the lowest ones, have gone to slots of `path`, and
      the log has got what that takes and `data`. The verifier unfolds this only where
      `Write` is mentioned. */
  ghost predicate Logs(g: Geometry, own0: map<nat, Slot>, log0: set<Logged>, own1: map<nat, Slot>, log1: set<Logged>,
          path: set<Slot>, data: set<Logged>) {
    forall key: int {:trigger Write(key)} :: Write(key) ==>
      && (forall b :: b in own0 ==> b in own1 && own1[b] == own0[b])
      && (forall b :: b in own1 && b !in own0 ==> own1[b] in path)
      && Low(g, own0, own1)
      && log1 == log0 + data + AllocLog(g, own0, own1)
  }

  ghost predicate Write(key: int) {
    true
  }

  ghost predicate Low(g: Geometry, own0: map<nat, Slot>, own1: map<nat, Slot>) {
    forall b, c: nat :: b in own1 && b !in own0 && g.datastart <= c < b ==> c in own1
  }

  lemma LogsNothing(g: Geometry, own: map<nat, Slot>, log: set<Logged>, path: set<Slot>, data: set<Logged>)
    ensures Logs(g, own, log, own, log + data, path, data)
  {
    assert NewSlots(own, own) == {} && own.Keys - own.Keys == {};
  }

  /** One allocation. */
  lemma LogsOne(g: Geometry, own: map<nat, Slot>, log: set<Logged>, s: Slot, b: nat, path: set<Slot>, log1: set<Logged>)
    requires b !in own && s in path && forall c: nat :: g.datastart <= c < b ==> c in own
    requires log1 == log + {BitmapAt(g.Bitmap(b))} + {HeldBy(s)} + if s.Entry? then {HeldBy(s.table)} else {}
    ensures Logs(g, own, log, own[b := s], log1, path, {})
  {
    var own1 := own[b := s];
    assert own1.Keys - own.Keys == {b};
    NewOne(own, s, b);
    assert AllocLog(g, own, own1)
        == {BitmapAt(g.Bitmap(b)), HeldBy(s)} + (if s.Entry? then {HeldBy(s.table)} else {});
  }

  lemma NewOne(own: map<nat, Slot>, s: Slot, b: nat)
    requires b !in own
    ensures NewSlots(own, own[b := s]) == {s}
  {
    assert own[b := s][b] == s;
  }

  lemma LogsTrans(g: Geometry, own0: map<nat, Slot>, log0: set<Logged>, own1: map<nat, Slot>, log1: set<Logged>,
          own2: map<nat, Slot>, log2: set<Logged>, p: set<Slot>, d: set<Logged>, q: set<Slot>, e: set<Logged>)
    requires Logs(g, own0, log0, own1, log1, p, d) && Logs(g, own1, log1, own2, log2, q, e)
    ensures Logs(g, own0, log0, own2, log2, p + q, d + e)
  {
    assert Write(0);
    AllocLogJoin(g, own0, own1, own2);
  }

  lemma AllocLogJoin(g: Geometry, own0: map<nat, Slot>, own1: map<nat, Slot>, own2: map<nat, Slot>)
    requires forall b :: b in own0 ==> b in own1 && own1[b] == own0[b]
    requires forall b :: b in own1 ==> b in own2 && own2[b] == own1[b]
    ensures AllocLog(g, own0, own2) == AllocLog(g, own0, own1) + AllocLog(g, own1, own2)
  {
    assert own2.Keys - own0.Keys == (own1.Keys - own0.Keys) + (own2.Keys - own1.Keys);
    NewJoin(own0, own1, own2);
    BitmapsJoin(g, own1.Keys - own0.Keys, own2.Keys - own1.Keys);
    SlotsJoin(NewSlots(own0, own1), NewSlots(own1, own2));
  }

  lemma NewJoin(own0: map<nat, Slot>, own1: map<nat, Slot>, own2: map<nat, Slot>)
    requires forall b :: b in own0 ==> b in own1 && own1[b] == own0[b]
    requires forall b :: b in own1 ==> b in own2 && own2[b] == own1[b]
    ensures NewSlots(own0, own2) == NewSlots(own0, own1) + NewSlots(own1, own2)
  {
  }

  lemma BitmapsJoin(g: Geometry, a: set<nat>, b: set<nat>)
    ensures BitmapLog(g, a + b) == BitmapLog(g, a) + BitmapLog(g, b)
  {
  }

  lemma SlotsJoin(a: set<Slot>, b: set<Slot>)
    ensures HeldLog(a + b) == HeldLog(a) + HeldLog(b) && TableLog(a + b) == TableLog(a) + TableLog(b)
  {
  }

  lemma LogsWider(g: Geometry, own0: map<nat, Slot>, log0: set<Logged>, own1: map<nat, Slot>, log1: set<Logged>,
          p: set<Slot>, d: set<Logged>, q: set<Slot>)
    requires Logs(g, own0, log0, own1, log1, p, d) && p <= q
    ensures Logs(g, own0, log0, own1, log1, q, d)
  {
    assert Write(0);
  }

  lemma LogsMore(g: Geometry, own0: map<nat, Slot>, log0: set<Logged>, own1: map<nat, Slot>, log1: set<Logged>,
          p: set<Slot>, d: set<Logged>, e: set<Logged>)
    requires Logs(g, own0, log0, own1, log1, p, d)
    ensures Logs(g, own0, log0, own1, log1 + e, p, d + e)
  {
    assert Write(0);
  }

  /** Where no slot has changed nothing has been allocated. */
  lemma NothingNew(g: Geometry, fs: Fs, own0: map<nat, Slot>, log0: set<Logged>, own1: map<nat, Slot>,
          log1: set<Logged>, p: set<Slot>)
    requires Sound(g, fs, own0, own0.Keys) && Sound(g, fs, own1, own1.Keys) && Logs(g, own0, log0, own1, log1, p, {})
    ensures log1 == log0
  {
    Unfold(g, fs, own0, own0.Keys);
    Unfold(g, fs, own1, own1.Keys);
    assert Write(0);
    forall b | b in own1 ensures b in own0 {
      assert At(fs, own1[b]) == b;
    }
    assert own1.Keys - own0.Keys == {} && NewSlots(own0, own1) == {};
  }

  // ---------------------------------------------------------------- the slots on the way

  /** A slot and the tables on the way to it. */
  function Prefixes(s: Slot): set<Slot> {
    {s} + if s.Entry? then Prefixes(s.table) else {}
  }

  function PathSlots(n: nat, lo: nat, hi: nat): set<Slot> {
    if hi <= lo then {} else PathSlots(n, lo, hi - 1) + Prefixes(DataSlot(n, hi - 1))
  }

  function DataLog(n: nat, lo: nat, hi: nat): set<Logged> {
    if hi <= lo then {} else DataLog(n, lo, hi - 1) + {HeldBy(DataSlot(n, hi - 1))}
  }

  lemma {:induction false} PrefixHeld(fs: Fs, s: Slot, p: Slot)
    requires IsSlot(fs, s) && p in Prefixes(s)
    ensures IsSlot(fs, p) && (At(fs, s) != 0 ==> At(fs, p) != 0)
    ensures p != s ==> IsTable(p)
  {
    if p != s {
      assert Inum(s) == Inum(s.table);
      PrefixHeld(fs, s.table, p);
    }
  }

  lemma {:induction false} PathHeld(fs: Fs, n: nat, lo: nat, hi: nat, p: Slot)
    requires n in fs.inodes && hi <= MAXFILE && p in PathSlots(n, lo, hi)
    ensures IsSlot(fs, p)
    ensures (forall bn: nat {:trigger DataSlot(n, bn)} :: lo <= bn < hi ==> At(fs, DataSlot(n, bn)) != 0)
      ==> At(fs, p) != 0
  {
    if p in Prefixes(DataSlot(n, hi - 1)) {
      DataSlotIsSlot(fs, n, hi - 1);
      PrefixHeld(fs, DataSlot(n, hi - 1), p);
    } else {
      PathHeld(fs, n, lo, hi - 1, p);
    }
  }

  // ---------------------------------------------------------------- from the state before

  /** The slots on the way to blocks lo to hi - 1 of file n that hold nothing yet. */
  ghost function Missing(fs: Fs, n: nat, lo: nat, hi: nat): set<Slot> {
    set s | s in PathSlots(n, lo, hi) && At(fs, s) == 0
  }

  /** The k lowest blocks from b on that are not in use, or all of them. */
  function Lowest(g: Geometry, used: set<nat>, b: nat, k: nat): set<nat>
    decreases g.size - b
  {
    if k == 0 || b >= g.size then {}
    else if b in used then Lowest(g, used, b + 1, k)
    else {b} + Lowest(g, used, b + 1, k - 1)
  }

  /** The blocks of bs are free, and every free block from b on below one of them is another.
      The verifier unfolds this only where `Start` is mentioned. */
  ghost predicate Initial(g: Geometry, used: set<nat>, b: nat, bs: set<nat>) {
    forall key: int {:trigger Start(key)} :: Start(key) ==>
      && (forall c :: c in bs ==> b <= c < g.size && c !in used)
      && forall c, d: nat :: c in bs && b <= d < c && d !in used ==> d in bs
  }

  ghost predicate Start(key: int) {
    true
  }

  lemma {:induction false} LowestUnique(g: Geometry, used: set<nat>, b: nat, bs: set<nat>)
    requires Initial(g, used, b, bs)
    ensures bs == Lowest(g, used, b, |bs|)
    decreases g.size - b
  {
    if bs != {} {
      InitialFirst(g, used, b, bs);
      InitialNext(g, used, b, bs);
      LowestUnique(g, used, b + 1, bs - {b});
      LessOne(bs, b);
    }
  }

  lemma LessOne(bs: set<nat>, b: nat)
    ensures b in bs ==> |bs - {b}| == |bs| - 1 && {b} + (bs - {b}) == bs
    ensures b !in bs ==> bs - {b} == bs
  {
  }

  lemma InitialFirst(g: Geometry, used: set<nat>, b: nat, bs: set<nat>)
    requires Initial(g, used, b, bs) && bs != {}
    ensures b < g.size && (b !in used ==> b in bs)
  {
    assert Start(0);
    var c :| c in bs;
  }

  lemma InitialNext(g: Geometry, used: set<nat>, b: nat, bs: set<nat>)
    requires Initial(g, used, b, bs)
    ensures Initial(g, used, b + 1, bs - {b}) && (b in used ==> b !in bs && bs - {b} == bs)
  {
    assert Start(0);
  }

  /** Everything but the inode's block that writing blocks lo to hi - 1 of file n will log. */
  ghost function Touched(g: Geometry, fs: Fs, own: map<nat, Slot>, n: nat, lo: nat, hi: nat): set<Logged> {
    var missing := Missing(fs, n, lo, hi);
    DataLog(n, lo, hi) + BitmapLog(g, Lowest(g, own.Keys, g.datastart, |missing|))
    + HeldLog(missing) + TableLog(missing)
  }

  lemma StillHeld(g: Geometry, fs0: Fs, own0: map<nat, Slot>, fs1: Fs, own1: map<nat, Slot>, s: Slot)
    requires Tree(g, fs0, own0) && Tree(g, fs1, own1) && IsSlot(fs0, s)
    requires forall b :: b in own0 ==> b in own1 && own1[b] == own0[b]
    ensures At(fs0, s) != 0 ==> At(fs0, s) in own0 && At(fs1, s) == At(fs0, s)
  {
    if At(fs0, s) != 0 {
      assert own1[At(fs0, s)] == s;
    }
  }

  /** The slots that got blocks are those that held nothing. */
  lemma NewWereEmpty(g: Geometry, fs0: Fs, own0: map<nat, Slot>, fs1: Fs, own1: map<nat, Slot>, path: set<Slot>)
    requires Tree(g, fs0, own0) && Tree(g, fs1, own1) && fs1.inodes.Keys == fs0.inodes.Keys
    requires forall b :: b in own0 ==> b in own1 && own1[b] == own0[b]
    requires forall b :: b in own1 && b !in own0 ==> own1[b] in path
    requires forall s :: s in path ==> IsSlot(fs0, s) && At(fs1, s) != 0
    ensures NewSlots(own0, own1) == set s | s in path && At(fs0, s) == 0
  {
    var filled := NewSlots(own0, own1);
    forall b | b in own1 && b !in own0 ensures At(fs0, own1[b]) == 0 {
      StillHeld(g, fs0, own0, fs1, own1, own1[b]);
      assert At(fs1, own1[b]) == b;
    }
    forall s | s in path && At(fs0, s) == 0 ensures s in filled {
      assert own1[At(fs1, s)] == s;
    }
  }

  /** Different blocks are held by different slots. */
  lemma {:induction false} SlotsSize(g: Geometry, fs: Fs, own: map<nat, Slot>, bs: set<nat>)
    requires Tree(g, fs, own) && bs <= own.Keys
    ensures |SlotsOf(own, bs)| == |bs|
  {
    if bs != {} {
      var c :| c in bs;
      SlotsSize(g, fs, own, bs - {c});
      forall b | b in bs - {c} ensures own[b] != own[c] {
        assert At(fs, own[b]) == b;
      }
      assert SlotsOf(own, bs) == SlotsOf(own, bs - {c}) + {own[c]};
    }
  }

  ghost function SlotsOf(own: map<nat, Slot>, bs: set<nat>): set<Slot>
    requires bs <= own.Keys
  {
    set b | b in bs :: own[b]
  }

  /** When the stretch has been written the log has got exactly what was to be expected. */
  lemma WroteTouched(g: Geometry, fs0: Fs, own0: map<nat, Slot>, log0: set<Logged>, fs1: Fs, own1: map<nat, Slot>,
          log1: set<Logged>, n: nat, lo: nat, hi: nat)
    requires Sound(g, fs0, own0, own0.Keys) && Sound(g, fs1, own1, own1.Keys) && n in fs0.inodes && hi <= MAXFILE
    requires fs1.inodes.Keys == fs0.inodes.Keys
    requires forall bn: nat {:trigger DataSlot(n, bn)} :: lo <= bn < hi ==> At(fs1, DataSlot(n, bn)) != 0
    requires Logs(g, own0, log0, own1, log1, PathSlots(n, lo, hi), DataLog(n, lo, hi))
    ensures log1 == log0 + Touched(g, fs0, own0, n, lo, hi)
  {
    assert Write(0);
    NewWereMissing(g, fs0, own0, fs1, own1, n, lo, hi);
    NewBlocks(g, fs1, own0, own1);
    var missing := Missing(fs0, n, lo, hi);
    Regroup(log0, DataLog(n, lo, hi), BitmapLog(g, own1.Keys - own0.Keys), HeldLog(missing), TableLog(missing));
  }

  lemma Regroup(a: set<Logged>, b: set<Logged>, c: set<Logged>, d: set<Logged>, e: set<Logged>)
    ensures a + b + (c + d + e) == a + (b + c + d + e)
  {
  }

  lemma NewWereMissing(g: Geometry, fs0: Fs, own0: map<nat, Slot>, fs1: Fs, own1: map<nat, Slot>,
          n: nat, lo: nat, hi: nat)
    requires Sound(g, fs0, own0, own0.Keys) && Sound(g, fs1, own1, own1.Keys) && n in fs0.inodes && hi <= MAXFILE
    requires fs1.inodes.Keys == fs0.inodes.Keys
    requires forall bn: nat {:trigger DataSlot(n, bn)} :: lo <= bn < hi ==> At(fs1, DataSlot(n, bn)) != 0
    requires forall b :: b in own0 ==> b in own1 && own1[b] == own0[b]
    requires forall b :: b in own1 && b !in own0 ==> own1[b] in PathSlots(n, lo, hi)
    ensures NewSlots(own0, own1) == Missing(fs0, n, lo, hi)
  {
    Unfold(g, fs0, own0, own0.Keys);
    Unfold(g, fs1, own1, own1.Keys);
    forall s | s in PathSlots(n, lo, hi) ensures IsSlot(fs0, s) && At(fs1, s) != 0 {
      PathHeld(fs0, n, lo, hi, s);
      PathHeld(fs1, n, lo, hi, s);
    }
    NewWereEmpty(g, fs0, own0, fs1, own1, PathSlots(n, lo, hi));
  }

  /** The new blocks are the lowest free ones, one for each new slot. */
  lemma NewBlocks(g: Geometry, fs1: Fs, own0: map<nat, Slot>, own1: map<nat, Slot>)
    requires Sound(g, fs1, own1, own1.Keys) && Low(g, own0, own1) && own0.Keys <= own1.Keys
    ensures own1.Keys - own0.Keys == Lowest(g, own0.Keys, g.datastart, |NewSlots(own0, own1)|)
  {
    NewSize(g, fs1, own0, own1);
    NewLowest(g, own0, own1);
  }

  lemma NewSize(g: Geometry, fs1: Fs, own0: map<nat, Slot>, own1: map<nat, Slot>)
    requires Sound(g, fs1, own1, own1.Keys)
    ensures |own1.Keys - own0.Keys| == |NewSlots(own0, own1)|
    ensures forall b :: b in own1 ==> g.datastart <= b < g.size
  {
    Unfold(g, fs1, own1, own1.Keys);
    SlotsSize(g, fs1, own1, own1.Keys - own0.Keys);
    SlotsOfNew(own0, own1);
  }

  lemma SlotsOfNew(own0: map<nat, Slot>, own1: map<nat, Slot>)
    ensures NewSlots(own0, own1) == SlotsOf(own1, own1.Keys - own0.Keys)
  {
  }

  lemma NewLowest(g: Geometry, own0: map<nat, Slot>, own1: map<nat, Slot>)
    requires Low(g, own0, own1) && own0.Keys <= own1.Keys && forall b :: b in own1 ==> g.datastart <= b < g.size
    ensures var bs := own1.Keys - own0.Keys; bs == Lowest(g, own0.Keys, g.datastart, |bs|)
  {
    var bs := own1.Keys - own0.Keys;
    assert Initial(g, own0.Keys, g.datastart, bs);
    LowestUnique(g, own0.Keys, g.datastart, bs);
  }

  // ---------------------------------------------------------------- when the blocks run out

  /** The blocks no slot holds. */
  ghost function Free(g: Geometry, own: map<nat, Slot>): set<nat> {
    set b: nat | g.datastart <= b < g.size && b !in own
  }

  /** From own0 to own1 blocks have gone to slots on the way to blocks lo to hi - 1 of file n,
      but one of those is still missing. The verifier unfolds this only where `Halt` is
      mentioned. */
  ghost predicate Stuck(fs1: Fs, own0: map<nat, Slot>, own1: map<nat, Slot>, n: nat, lo: nat, hi: nat) {
    forall key: int {:trigger Halt(key)} :: Halt(key) ==>
      && (forall b :: b in own0 ==> b in own1 && own1[b] == own0[b])
      && (forall b :: b in own1 && b !in own0 ==> own1[b] in PathSlots(n, lo, hi))
      && exists bn: nat {:trigger DataSlot(n, bn)} :: lo <= bn < hi && At(fs1, DataSlot(n, bn)) == 0
  }

  ghost predicate Halt(key: int) {
    true
  }

  /** A write that is stuck with no block free had too few of them. */
  lemma StuckShort(g: Geometry, fs0: Fs, own0: map<nat, Slot>, fs1: Fs, own1: map<nat, Slot>, n: nat, lo: nat, hi: nat)
    requires Sound(g, fs0, own0, own0.Keys) && Sound(g, fs1, own1, own1.Keys) && n in fs0.inodes && hi <= MAXFILE
    requires fs1.inodes.Keys == fs0.inodes.Keys && Stuck(fs1, own0, own1, n, lo, hi) && Free(g, own1) == {}
    ensures |Missing(fs0, n, lo, hi)| > |Free(g, own0)|
  {
    assert Halt(0);
    var bn: nat :| lo <= bn < hi && At(fs1, DataSlot(n, bn)) == 0;
    var last, missing, filled := DataSlot(n, bn), Missing(fs0, n, lo, hi), NewSlots(own0, own1);
    Unfold(g, fs0, own0, own0.Keys);
    Unfold(g, fs1, own1, own1.Keys);
    PathHas(n, lo, hi, bn, last);
    WasMissing(g, fs0, own0, fs1, own1, n, lo, hi, last);
    forall b | b in own1 && b !in own0 ensures own1[b] in missing - {last} {
      assert At(fs1, own1[b]) == b;
      NewWasMissing(g, fs0, own0, fs1, own1, n, lo, hi, b);
    }
    SetsGrow(filled, missing - {last});
    NewSize(g, fs1, own0, own1);
    assert own1.Keys - own0.Keys == Free(g, own0) by {
      AllTaken(g, own0, own1);
    }
  }

  lemma WasMissing(g: Geometry, fs0: Fs, own0: map<nat, Slot>, fs1: Fs, own1: map<nat, Slot>, n: nat, lo: nat, hi: nat,
          s: Slot)
    requires Tree(g, fs0, own0) && Tree(g, fs1, own1) && n in fs0.inodes && hi <= MAXFILE
    requires forall b :: b in own0 ==> b in own1 && own1[b] == own0[b]
    requires s in PathSlots(n, lo, hi) && At(fs1, s) == 0
    ensures s in Missing(fs0, n, lo, hi)
  {
    PathHeld(fs0, n, lo, hi, s);
    StillHeld(g, fs0, own0, fs1, own1, s);
  }

  lemma NewWasMissing(g: Geometry, fs0: Fs, own0: map<nat, Slot>, fs1: Fs, own1: map<nat, Slot>,
          n: nat, lo: nat, hi: nat, b: nat)
    requires Tree(g, fs0, own0) && Tree(g, fs1, own1) && n in fs0.inodes && hi <= MAXFILE
    requires forall c :: c in own0 ==> c in own1 && own1[c] == own0[c]
    requires b in own1 && b !in own0 && own1[b] in PathSlots(n, lo, hi)
    ensures own1[b] in Missing(fs0, n, lo, hi)
  {
    PathHeld(fs0, n, lo, hi, own1[b]);
    StillHeld(g, fs0, own0, fs1, own1, own1[b]);
    assert At(fs1, own1[b]) == b;
  }

  lemma SetsGrow<T>(a: set<T>, b: set<T>)
    requires a <= b
    ensures |a| <= |b|
  {
    assert b == a + (b - a);
  }

  lemma AllTaken(g: Geometry, own0: map<nat, Slot>, own1: map<nat, Slot>)
    requires own0.Keys <= own1.Keys && Free(g, own1) == {} && forall b :: b in own1 ==> g.datastart <= b < g.size
    ensures own1.Keys - own0.Keys == Free(g, own0)
  {
    forall b | b in Free(g, own0) ensures b in own1 {
      assert b !in Free(g, own1);
    }
  }

  /** A write that has got all its blocks had enough of them. */
  lemma WroteFits(g: Geometry, fs0: Fs, own0: map<nat, Slot>, log0: set<Logged>, fs1: Fs, own1: map<nat, Slot>,
          log1: set<Logged>, n: nat, lo: nat, hi: nat)
    requires Sound(g, fs0, own0, own0.Keys) && Sound(g, fs1, own1, own1.Keys) && n in fs0.inodes && hi <= MAXFILE
    requires fs1.inodes.Keys == fs0.inodes.Keys
    requires forall bn: nat {:trigger DataSlot(n, bn)} :: lo <= bn < hi ==> At(fs1, DataSlot(n, bn)) != 0
    requires Logs(g, own0, log0, own1, log1, PathSlots(n, lo, hi), DataLog(n, lo, hi))
    ensures |Missing(fs0, n, lo, hi)| <= |Free(g, own0)|
  {
    assert Write(0);
    NewWereMissing(g, fs0, own0, fs1, own1, n, lo, hi);
    NewSize(g, fs1, own0, own1);
    SetsGrow(own1.Keys - own0.Keys, Free(g, own0));
  }

  // ---------------------------------------------------------------- how many blocks

  /** The blocks of a stretch of cnt bytes from off on are First to Last - 1. */
  function First(off: nat): nat {
    off / BSIZE
  }

  function Last(off: nat, cnt: nat): nat {
    if cnt == 0 then First(off) else (off + cnt - 1) / BSIZE + 1
  }

  /** What `writei` of cnt bytes from off on will give to `log_write`. */
  ghost function WillLog(g: Geometry, fs: Fs, own: map<nat, Slot>, n: nat, off: nat, cnt: nat): set<Logged>
    requires n in fs.inodes
  {
    Touched(g, fs, own, n, First(off), Last(off, cnt))
    + if cnt > 0 && off + cnt > fs.inodes[n].size then {InodeOf(n)} else {}
  }

  /** The tables that are new or get an entry. */
  ghost function TouchedTables(fs: Fs, n: nat, lo: nat, hi: nat): set<Slot> {
    (set s | s in Missing(fs, n, lo, hi) && IsTable(s)) + set s | s in Missing(fs, n, lo, hi) && s.Entry? :: s.table
  }

  lemma {:induction false} InPath(n: nat, lo: nat, hi: nat, p: Slot) returns (bn: nat)
    requires p in PathSlots(n, lo, hi)
    ensures lo <= bn < hi && p in Prefixes(DataSlot(n, bn))
  {
    if p in Prefixes(DataSlot(n, hi - 1)) {
      bn := hi - 1;
    } else {
      bn := InPath(n, lo, hi - 1, p);
    }
  }

  lemma {:induction false} PathHas(n: nat, lo: nat, hi: nat, bn: nat, p: Slot)
    requires lo <= bn < hi && p in Prefixes(DataSlot(n, bn))
    ensures p in PathSlots(n, lo, hi)
  {
    if bn < hi - 1 {
      PathHas(n, lo, hi - 1, bn, p);
    }
  }

  lemma {:induction false} DataLogHas(n: nat, lo: nat, hi: nat, x: Logged)
    ensures x in DataLog(n, lo, hi) <==> exists bn: nat :: lo <= bn < hi && x == HeldBy(DataSlot(n, bn))
  {
    if lo < hi {
      DataLogHas(n, lo, hi - 1, x);
    }
  }

  lemma {:induction false} DataLogSize(n: nat, lo: nat, hi: nat)
    requires lo <= hi
    ensures |DataLog(n, lo, hi)| == hi - lo
  {
    if lo < hi {
      DataLogSize(n, lo, hi - 1);
      DataLogHas(n, lo, hi - 1, HeldBy(DataSlot(n, hi - 1)));
      forall bn: nat | lo <= bn < hi - 1 ensures DataSlot(n, bn) != DataSlot(n, hi - 1) {
        if DataSlot(n, bn) == DataSlot(n, hi - 1) {
          DataSlotInjective(n, bn, n, hi - 1);
        }
      }
    }
  }

  /** What is on the way to a block: the block's own slot, or a table. */
  lemma PathParts(fs: Fs, n: nat, lo: nat, hi: nat, p: Slot)
    requires n in fs.inodes && hi <= MAXFILE && p in PathSlots(n, lo, hi)
    ensures IsTable(p) <==> HeldBy(p) !in DataLog(n, lo, hi)
    ensures p.Entry? ==> p.table in PathSlots(n, lo, hi) && IsTable(p.table)
  {
    var bn := InPath(n, lo, hi, p);
    DataSlotIsSlot(fs, n, bn);
    PrefixHeld(fs, DataSlot(n, bn), p);
    DataLogHas(n, lo, hi, HeldBy(p));
    if IsTable(p) {
      forall c: nat | lo <= c < hi ensures p != DataSlot(n, c) {
        DataSlotIsSlot(fs, n, c);
      }
    }
    if p.Entry? {
      PrefixClosed(DataSlot(n, bn), p);
      PathHas(n, lo, hi, bn, p.table);
    }
  }

  lemma {:induction false} PrefixClosed(s: Slot, p: Slot)
    requires p in Prefixes(s) && p.Entry?
    ensures p.table in Prefixes(s)
  {
    if p != s {
      PrefixClosed(s.table, p);
    }
  }

  /** The three kinds of blocks are apart. */
  lemma TouchedParts(g: Geometry, fs: Fs, own: map<nat, Slot>, n: nat, lo: nat, hi: nat)
    requires n in fs.inodes && hi <= MAXFILE
    ensures Touched(g, fs, own, n, lo, hi) == DataLog(n, lo, hi) + HeldLog(TouchedTables(fs, n, lo, hi))
      + BitmapLog(g, Lowest(g, own.Keys, g.datastart, |Missing(fs, n, lo, hi)|))
    ensures DataLog(n, lo, hi) !! HeldLog(TouchedTables(fs, n, lo, hi))
    ensures forall x :: x in DataLog(n, lo, hi) ==> x.HeldBy?
  {
    var missing, tables := Missing(fs, n, lo, hi), TouchedTables(fs, n, lo, hi);
    forall s | s in missing
      ensures HeldBy(s) in DataLog(n, lo, hi) || s in tables
      ensures IsTable(s) ==> HeldBy(s) !in DataLog(n, lo, hi)
      ensures s.Entry? ==> s.table in tables && HeldBy(s.table) !in DataLog(n, lo, hi)
    {
      PathParts(fs, n, lo, hi, s);
      if s.Entry? {
        PathParts(fs, n, lo, hi, s.table);
      }
    }
    forall x | x in DataLog(n, lo, hi) ensures x.HeldBy? {
      DataLogHas(n, lo, hi, x);
    }
  }

  lemma {:induction false} HeldLogSize(slots: set<Slot>)
    ensures |HeldLog(slots)| == |slots|
  {
    if slots != {} {
      var s :| s in slots;
      HeldLogSize(slots - {s});
      assert HeldLog(slots) == HeldLog(slots - {s}) + {HeldBy(s)};
    }
  }

  lemma TouchedSize(g: Geometry, fs: Fs, own: map<nat, Slot>, n: nat, lo: nat, hi: nat)
    requires n in fs.inodes && lo <= hi <= MAXFILE
    ensures |Touched(g, fs, own, n, lo, hi)| == hi - lo + |TouchedTables(fs, n, lo, hi)|
      + |BitmapLog(g, Lowest(g, own.Keys, g.datastart, |Missing(fs, n, lo, hi)|))|
    ensures InodeOf(n) !in Touched(g, fs, own, n, lo, hi)
  {
    var bits := BitmapLog(g, Lowest(g, own.Keys, g.datastart, |Missing(fs, n, lo, hi)|));
    var tables := HeldLog(TouchedTables(fs, n, lo, hi));
    TouchedParts(g, fs, own, n, lo, hi);
    DataLogSize(n, lo, hi);
    HeldLogSize(TouchedTables(fs, n, lo, hi));
    ThreeKinds(DataLog(n, lo, hi), tables, bits, n);
  }

  lemma ThreeKinds(data: set<Logged>, tables: set<Logged>, bits: set<Logged>, n: nat)
    requires data !! tables && forall x :: x in data || x in tables ==> x.HeldBy?
    requires forall x :: x in bits ==> x.BitmapAt?
    ensures |data + tables + bits| == |data| + |tables| + |bits| && InodeOf(n) !in data + tables + bits
  {
    assert (data + tables) !! bits;
  }

  /** How many distinct blocks a write logs: those of the stretch, the tables that are new or
      get an entry, the bitmap blocks, and the inode's when the file grows. */
  lemma HowMany(g: Geometry, fs: Fs, own: map<nat, Slot>, n: nat, off: nat, cnt: nat)
    requires n in fs.inodes && off + cnt <= MAXFILE * BSIZE
    ensures var lo, hi := First(off), Last(off, cnt);
      |WillLog(g, fs, own, n, off, cnt)| == hi - lo + |TouchedTables(fs, n, lo, hi)|
        + |BitmapLog(g, Lowest(g, own.Keys, g.datastart, |Missing(fs, n, lo, hi)|))|
        + if cnt > 0 && off + cnt > fs.inodes[n].size then 1 else 0
  {
    StretchFits(off, cnt);
    TouchedSize(g, fs, own, n, First(off), Last(off, cnt));
  }

  /** A turn of the loop writes the next block. */
  lemma TurnBlock(off: nat, tot: nat, m: nat)
    requires 0 < m <= BSIZE - (off + tot) % BSIZE && (tot > 0 ==> (off + tot) % BSIZE == 0)
    ensures Last(off, tot) == (off + tot) / BSIZE && Last(off, tot + m) == (off + tot) / BSIZE + 1
    ensures m == BSIZE - (off + tot) % BSIZE ==> (off + tot + m) % BSIZE == 0
    ensures First(off) <= Last(off, tot)
  {
  }

  lemma StretchFits(off: nat, cnt: nat)
    requires off + cnt <= MAXFILE * BSIZE
    ensures First(off) <= Last(off, cnt) && (cnt > 0 ==> Last(off, cnt) <= MAXFILE)
    ensures cnt <= 3 * BSIZE ==> Last(off, cnt) - First(off) <= 4
  {
  }

  /** The tables on the way to no more blocks than a table has entries are at most three. */
  function Three(n: nat, lo: nat, hi: nat): set<Slot>
    requires lo < hi
  {
    var first, top := NDIRECT + NINDIRECT, Top(n, NDIRECT + 1);
    if hi <= first then {Top(n, NDIRECT)}
    else if lo < first then {Top(n, NDIRECT), top, Entry(top, 0)}
    else {top, Entry(top, (lo - first) / NINDIRECT), Entry(top, (hi - 1 - first) / NINDIRECT)}
  }

  /** The tables on the way to one block. */
  lemma BlockTables(n: nat, bn: nat, p: Slot)
    requires bn < MAXFILE && p in Prefixes(DataSlot(n, bn)) && IsTable(p)
    ensures var first, top := NDIRECT + NINDIRECT, Top(n, NDIRECT + 1);
      if bn < first then p == Top(n, NDIRECT) else p == top || p == Entry(top, (bn - first) / NINDIRECT)
  {
    var first, top := NDIRECT + NINDIRECT, Top(n, NDIRECT + 1);
    assert Prefixes(Top(n, NDIRECT)) == {Top(n, NDIRECT)} && Prefixes(top) == {top};
    if bn >= first {
      var t := Entry(top, (bn - first) / NINDIRECT);
      assert Prefixes(t) == {t, top};
    }
  }

  lemma InThree(n: nat, lo: nat, hi: nat, bn: nat, p: Slot)
    requires lo <= bn < hi && hi - lo <= NINDIRECT
    requires var first, top := NDIRECT + NINDIRECT, Top(n, NDIRECT + 1);
      if bn < first then p == Top(n, NDIRECT) else p == top || p == Entry(top, (bn - first) / NINDIRECT)
    ensures p in Three(n, lo, hi)
  {
    var first := NDIRECT + NINDIRECT;
    if bn >= first {
      SameTable(if lo < first then 0 else lo - first, hi - 1 - first, bn - first);
    }
  }

  lemma SameTable(a: nat, c: nat, b: nat)
    requires a <= b <= c < a + NINDIRECT
    ensures b / NINDIRECT == a / NINDIRECT || b / NINDIRECT == c / NINDIRECT
  {
    Quotient(a, b);
    Quotient(b, c);
    Quotient(c, a + NINDIRECT);
    NextQuotient(a);
  }

  lemma Quotient(a: nat, b: nat)
    requires a <= b
    ensures a / NINDIRECT <= b / NINDIRECT
  {
  }

  lemma NextQuotient(a: nat)
    ensures (a + NINDIRECT) / NINDIRECT == a / NINDIRECT + 1
  {
  }

  lemma TablesFew(fs: Fs, n: nat, lo: nat, hi: nat)
    requires n in fs.inodes && lo < hi <= MAXFILE && hi - lo <= NINDIRECT
    ensures |TouchedTables(fs, n, lo, hi)| <= 3
  {
    forall p | p in TouchedTables(fs, n, lo, hi) ensures p in Three(n, lo, hi) {
      assert exists s :: s in Missing(fs, n, lo, hi) && ((s == p && IsTable(p)) || (s.Entry? && s.table == p));
      var s :| s in Missing(fs, n, lo, hi) && ((s == p && IsTable(p)) || (s.Entry? && s.table == p));
      PathParts(fs, n, lo, hi, s);
      var bn := InPath(n, lo, hi, p);
      BlockTables(n, bn, p);
      InThree(n, lo, hi, bn, p);
    }
    SlotsFew(TouchedTables(fs, n, lo, hi), Three(n, lo, hi));
  }

  lemma SlotsFew(a: set<Slot>, b: set<Slot>)
    requires a <= b
    ensures |a| <= |b|
  {
    assert b == a + (b - a);
  }

  /** There is a bitmap block for every BPB blocks. */
  lemma {:induction false} BitmapsFew(g: Geometry, bs: set<nat>, m: nat, k: nat)
    requires forall b :: b in bs ==> m * BPB <= b < (m + k) * BPB
    ensures |BitmapLog(g, bs)| <= k
  {
    if k == 0 {
      assert BitmapLog(g, bs) == {};
    } else {
      var low := set b | b in bs && b < (m + k - 1) * BPB;
      BitmapsFew(g, low, m, k - 1);
      forall b | b in bs && b !in low ensures g.Bitmap(b) == m + k - 1 + g.bmapstart {
        LastBitmap(b, m + k);
      }
      BitmapsIn(g, bs, low, BitmapAt(m + k - 1 + g.bmapstart));
    }
  }

  lemma LastBitmap(b: nat, k: nat)
    requires k > 0 && (k - 1) * BPB <= b < k * BPB
    ensures b / BPB == k - 1
  {
  }

  lemma BitmapsIn(g: Geometry, bs: set<nat>, low: set<nat>, x: Logged)
    requires low <= bs && forall b :: b in bs && b !in low ==> BitmapAt(g.Bitmap(b)) == x
    ensures |BitmapLog(g, bs)| <= |BitmapLog(g, low)| + 1
  {
    var all := BitmapLog(g, low) + {x};
    assert BitmapLog(g, bs) <= all;
    assert all == BitmapLog(g, bs) + (all - BitmapLog(g, bs));
  }

  lemma {:induction false} LowestBetween(g: Geometry, used: set<nat>, b: nat, k: nat)
    ensures forall c :: c in Lowest(g, used, b, k) ==> b <= c < g.size
    decreases g.size - b
  {
    if k > 0 && b < g.size {
      LowestBetween(g, used, b + 1, if b in used then k else k - 1);
    }
  }

  /** `filewrite` writes at most this many bytes in one operation. */
  const CHUNK: nat := (LogDisk.MAXOPBLOCKS - 1 - 1 - 2) / 2 * 512

  /** One such write logs at most eight blocks besides bitmap blocks. */
  lemma ChunkBlocks(g: Geometry, fs: Fs, own: map<nat, Slot>, n: nat, off: nat, cnt: nat)
    requires n in fs.inodes && off + cnt <= MAXFILE * BSIZE && cnt <= CHUNK
    ensures |WillLog(g, fs, own, n, off, cnt)|
      <= 8 + |BitmapLog(g, Lowest(g, own.Keys, g.datastart, |Missing(fs, n, First(off), Last(off, cnt))|))|
  {
    HowMany(g, fs, own, n, off, cnt);
    StretchFits(off, cnt);
    if cnt > 0 {
      TablesFew(fs, n, First(off), Last(off, cnt));
    } else {
      assert TouchedTables(fs, n, First(off), Last(off, cnt)) == {};
    }
  }

  /** On a volume whose data blocks share at most two bitmap blocks every such write keeps to
      its quota. */
  lemma QuotaKept(g: Geometry, fs: Fs, own: map<nat, Slot>, n: nat, off: nat, cnt: nat)
    requires n in fs.inodes && off + cnt <= MAXFILE * BSIZE && cnt <= CHUNK
    requires g.size <= (g.datastart / BPB + 2) * BPB
    ensures |WillLog(g, fs, own, n, off, cnt)| <= LogDisk.MAXOPBLOCKS
  {
    ChunkBlocks(g, fs, own, n, off, cnt);
    LowestTwo(g, own.Keys, |Missing(fs, n, First(off), Last(off, cnt))|);
  }

  lemma LowestTwo(g: Geometry, used: set<nat>, k: nat)
    requires g.size <= (g.datastart / BPB + 2) * BPB
    ensures |BitmapLog(g, Lowest(g, used, g.datastart, k))| <= 2
  {
    LowestBetween(g, used, g.datastart, k);
    Below(g.datastart);
    BitmapsFew(g, Lowest(g, used, g.datastart, k), g.datastart / BPB, 2);
  }

  lemma Below(b: nat)
    ensures b / BPB * BPB <= b
  {
  }

  /** The size of a file that ends in the last block but one of its indirect table. */
  const BEFORE: nat := (NDIRECT + NINDIRECT - 2) * BSIZE + 1

  /** Where a write leaves the indirect table for the double-indirect one: the slots on the way
      to its four blocks. */
  lemma EdgePath(n: nat)
    ensures var one, top := Top(n, NDIRECT), Top(n, NDIRECT + 1); var inner := Entry(top, 0);
      PathSlots(n, First(BEFORE), Last(BEFORE, CHUNK))
        == {one, Entry(one, NINDIRECT - 2), Entry(one, NINDIRECT - 1), top, inner, Entry(inner, 0), Entry(inner, 1)}
  {
    var one, top, lo := Top(n, NDIRECT), Top(n, NDIRECT + 1), NDIRECT + NINDIRECT - 2;
    var inner := Entry(top, 0);
    assert Prefixes(one) == {one} && Prefixes(top) == {top} && Prefixes(inner) == {inner, top};
    assert Prefixes(Entry(inner, 0)) == {Entry(inner, 0), inner, top};
    assert Prefixes(Entry(inner, 1)) == {Entry(inner, 1), inner, top};
    assert PathSlots(n, lo, lo) == {};
    assert PathSlots(n, lo, lo + 1) == Prefixes(Entry(one, NINDIRECT - 2));
    assert PathSlots(n, lo, lo + 2) == PathSlots(n, lo, lo + 1) + Prefixes(Entry(one, NINDIRECT - 1));
    assert PathSlots(n, lo, lo + 3) == PathSlots(n, lo, lo + 2) + Prefixes(Entry(inner, 0));
    assert PathSlots(n, lo, lo + 4) == PathSlots(n, lo, lo + 3) + Prefixes(Entry(inner, 1));
  }

  lemma EdgeMissing(fs: Fs, n: nat)
    requires n in fs.inodes && At(fs, Entry(Top(n, NDIRECT), NINDIRECT - 2)) != 0
    requires At(fs, Entry(Top(n, NDIRECT), NINDIRECT - 1)) == 0 && At(fs, Top(n, NDIRECT + 1)) == 0
    ensures |Missing(fs, n, First(BEFORE), Last(BEFORE, CHUNK))| == 5
    ensures |TouchedTables(fs, n, First(BEFORE), Last(BEFORE, CHUNK))| == 3
  {
    var one, top, lo, hi := Top(n, NDIRECT), Top(n, NDIRECT + 1), First(BEFORE), Last(BEFORE, CHUNK);
    var inner := Entry(top, 0);
    EdgePath(n);
    assert At(fs, one) != 0 && At(fs, inner) == 0 && At(fs, Entry(inner, 0)) == 0 && At(fs, Entry(inner, 1)) == 0;
    var missing := {Entry(one, NINDIRECT - 1), top, inner, Entry(inner, 0), Entry(inner, 1)};
    assert Missing(fs, n, lo, hi) == missing;
    assert Entry(one, NINDIRECT - 1) in missing && inner in missing && Entry(inner, 0) in missing;
    assert TouchedTables(fs, n, lo, hi) == {one, top, inner};
  }

  /** One more stretch of CHUNK bytes at the end of such a file keeps to the quota if and only
      if the five lowest free blocks share at most two bitmap blocks. */
  lemma EdgeQuota(g: Geometry, fs: Fs, own: map<nat, Slot>, n: nat)
    requires n in fs.inodes && Filled(fs) && fs.inodes[n].size == BEFORE
    requires At(fs, Entry(Top(n, NDIRECT), NINDIRECT - 1)) == 0 && At(fs, Top(n, NDIRECT + 1)) == 0
    ensures |WillLog(g, fs, own, n, BEFORE, CHUNK)| <= LogDisk.MAXOPBLOCKS
      <==> |BitmapLog(g, Lowest(g, own.Keys, g.datastart, 5))| <= 2
  {
    var last := NDIRECT + NINDIRECT - 2;
    assert DataSlot(n, last) == Entry(Top(n, NDIRECT), NINDIRECT - 2) && last * BSIZE < BEFORE;
    assert At(fs, DataSlot(n, last)) != 0;
    EdgeMissing(fs, n);
    EdgeCount(g, fs, own, n);
  }

  lemma EdgeBlocks()
    ensures First(BEFORE) == 138 && Last(BEFORE, CHUNK) == 142 && BEFORE + CHUNK <= MAXFILE * BSIZE && CHUNK > 0
  {
    assert BEFORE == 70657 && CHUNK == 1536;
  }

  lemma EdgeCount(g: Geometry, fs: Fs, own: map<nat, Slot>, n: nat)
    requires n in fs.inodes && fs.inodes[n].size == BEFORE
    requires |Missing(fs, n, First(BEFORE), Last(BEFORE, CHUNK))| == 5
    requires |TouchedTables(fs, n, First(BEFORE), Last(BEFORE, CHUNK))| == 3
    ensures |WillLog(g, fs, own, n, BEFORE, CHUNK)| == 8 + |BitmapLog(g, Lowest(g, own.Keys, g.datastart, 5))|
  {
    EdgeBlocks();
    HowMany(g, fs, own, n, BEFORE, CHUNK);
  }

  /** The items of a log stand for different blocks: what a slot holds is no other slot's and
      no bitmap block. */
  lemma DistinctBlocks(g: Geometry, fs: Fs, own: map<nat, Slot>, s: Slot, r: Slot, b: nat)
    requires Sound(g, fs, own, own.Keys) && IsSlot(fs, s) && IsSlot(fs, r) && b < g.size
    requires At(fs, s) != 0 && s != r
    ensures At(fs, s) != At(fs, r) && At(fs, s) != g.Bitmap(b)
  {
    Unfold(g, fs, own, own.Keys);
    if At(fs, r) != 0 {
      assert own[At(fs, r)] == r && own[At(fs, s)] == s;
    }
  }

  // ---------------------------------------------------------------- the steps of the code

  lemma LogsOn(g: Geometry, own0: map<nat, Slot>, log0: set<Logged>, own1: map<nat, Slot>, log1: set<Logged>,
          own2: map<nat, Slot>, log2: set<Logged>, p: set<Slot>)
    requires Logs(g, own0, log0, own1, log1, p, {}) && Logs(g, own1, log1, own2, log2, p, {})
    ensures Logs(g, own0, log0, own2, log2, p, {})
  {
    LogsTrans(g, own0, log0, own1, log1, own2, log2, p, {}, p, {});
    var nothing: set<Logged> := {};
    assert p + p == p && nothing + nothing == nothing;
  }

  lemma DataLogged(g: Geometry, own0: map<nat, Slot>, log0: set<Logged>, own1: map<nat, Slot>, log1: set<Logged>,
          n: nat, bn: nat)
    requires Logs(g, own0, log0, own1, log1, Prefixes(DataSlot(n, bn)), {})
    ensures Logs(g, own0, log0, own1, log1 + {HeldBy(DataSlot(n, bn))}, Prefixes(DataSlot(n, bn)),
              {HeldBy(DataSlot(n, bn))})
  {
    LogsMore(g, own0, log0, own1, log1, Prefixes(DataSlot(n, bn)), {}, {HeldBy(DataSlot(n, bn))});
    assert {} + {HeldBy(DataSlot(n, bn))} == {HeldBy(DataSlot(n, bn))};
  }

  /** The stretch of cnt bytes from off on has been written; unfolded only where `Part` is
      mentioned. */
  ghost predicate LogsStretch(g: Geometry, own0: map<nat, Slot>, log0: set<Logged>, own1: map<nat, Slot>,
          log1: set<Logged>, n: nat, off: nat, cnt: nat)
  {
    forall key: int {:trigger Part(key)} :: Part(key) ==>
      var lo, hi := First(off), Last(off, cnt);
      Logs(g, own0, log0, own1, log1, PathSlots(n, lo, hi), DataLog(n, lo, hi))
  }

  ghost predicate Part(key: int) {
    true
  }

  lemma StretchStarts(g: Geometry, own: map<nat, Slot>, log: set<Logged>, n: nat, off: nat)
    ensures LogsStretch(g, own, log, own, log, n, off, 0)
  {
    LogsNothing(g, own, log, {}, {});
    assert log + {} == log;
  }

  lemma StretchGrows(g: Geometry, own0: map<nat, Slot>, log0: set<Logged>, own1: map<nat, Slot>, log1: set<Logged>,
          own2: map<nat, Slot>, log2: set<Logged>, n: nat, off: nat, tot: nat, next: nat)
    requires 0 < next - tot <= BSIZE - (off + tot) % BSIZE && (tot > 0 ==> (off + tot) % BSIZE == 0)
    requires LogsStretch(g, own0, log0, own1, log1, n, off, tot)
    requires var s := DataSlot(n, (off + tot) / BSIZE); Logs(g, own1, log1, own2, log2, Prefixes(s), {HeldBy(s)})
    ensures LogsStretch(g, own0, log0, own2, log2, n, off, next)
    ensures next - tot == BSIZE - (off + tot) % BSIZE ==> (off + next) % BSIZE == 0
  {
    assert Part(0);
    TurnBlock(off, tot, next - tot);
    var lo, hi := First(off), Last(off, tot);
    var s := DataSlot(n, hi);
    LogsTrans(g, own0, log0, own1, log1, own2, log2, PathSlots(n, lo, hi), DataLog(n, lo, hi),
      Prefixes(s), {HeldBy(s)});
  }

  /** The next block of a stretch of cnt bytes is not to be had. */
  lemma StretchStuck(g: Geometry, own0: map<nat, Slot>, log0: set<Logged>, own1: map<nat, Slot>, log1: set<Logged>,
          own2: map<nat, Slot>, log2: set<Logged>, fs2: Fs, n: nat, off: nat, tot: nat, cnt: nat)
    requires tot < cnt && (tot > 0 ==> (off + tot) % BSIZE == 0)
    requires LogsStretch(g, own0, log0, own1, log1, n, off, tot)
    requires var s := DataSlot(n, (off + tot) / BSIZE);
      Logs(g, own1, log1, own2, log2, Prefixes(s), {}) && At(fs2, s) == 0
    ensures Stuck(fs2, own0, own2, n, First(off), Last(off, cnt))
  {
    assert Part(0);
    assert Write(0);
    var lo, mid, hi, bn := First(off), Last(off, tot), Last(off, cnt), (off + tot) / BSIZE;
    NextBlock(off, tot, cnt);
    PathGrows(n, lo, mid, hi);
    forall p | p in Prefixes(DataSlot(n, bn)) ensures p in PathSlots(n, lo, hi) {
      PathHas(n, lo, hi, bn, p);
    }
  }

  lemma NextBlock(off: nat, tot: nat, cnt: nat)
    requires tot < cnt && (tot > 0 ==> (off + tot) % BSIZE == 0)
    ensures First(off) <= (off + tot) / BSIZE < Last(off, cnt) && Last(off, tot) <= Last(off, cnt)
  {
  }

  lemma {:induction false} PathGrows(n: nat, lo: nat, mid: nat, hi: nat)
    requires mid <= hi
    ensures PathSlots(n, lo, mid) <= PathSlots(n, lo, hi)
  {
    if mid < hi {
      PathGrows(n, lo, mid, hi - 1);
    }
  }

  lemma StretchLogged(g: Geometry, fs0: Fs, own0: map<nat, Slot>, log0: set<Logged>, fs1: Fs, own1: map<nat, Slot>,
          log1: set<Logged>, n: nat, off: nat, cnt: nat)
    requires Sound(g, fs0, own0, own0.Keys) && Sound(g, fs1, own1, own1.Keys) && n in fs0.inodes
    requires off + cnt <= MAXFILE * BSIZE && fs1.inodes.Keys == fs0.inodes.Keys
    requires forall bn: nat {:trigger DataSlot(n, bn)} :: bn * BSIZE < off + cnt ==> At(fs1, DataSlot(n, bn)) != 0
    requires LogsStretch(g, own0, log0, own1, log1, n, off, cnt)
    ensures log1 == log0 + Touched(g, fs0, own0, n, First(off), Last(off, cnt))
    ensures |Missing(fs0, n, First(off), Last(off, cnt))| <= |Free(g, own0)|
  {
    assert Part(0);
    StretchFits(off, cnt);
    forall bn: nat {:trigger DataSlot(n, bn)} | First(off) <= bn < Last(off, cnt)
      ensures At(fs1, DataSlot(n, bn)) != 0
    {
      BlockBegins(off, cnt, bn);
    }
    WroteTouched(g, fs0, own0, log0, fs1, own1, log1, n, First(off), Last(off, cnt));
    WroteFits(g, fs0, own0, log0, fs1, own1, log1, n, First(off), Last(off, cnt));
  }

  lemma WithInode(g: Geometry, fs: Fs, own: map<nat, Slot>, n: nat, off: nat, cnt: nat, log0: set<Logged>,
          log1: set<Logged>)
    requires n in fs.inodes
    requires log1 == log0 + Touched(g, fs, own, n, First(off), Last(off, cnt))
      + if cnt > 0 && off + cnt > fs.inodes[n].size then {InodeOf(n)} else {}
    ensures log1 == log0 + WillLog(g, fs, own, n, off, cnt)
  {
  }

  lemma BlockBegins(off: nat, cnt: nat, bn: nat)
    requires First(off) <= bn < Last(off, cnt)
    ensures bn * BSIZE < off + cnt
  {
  }
}
