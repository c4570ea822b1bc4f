/** The disk as the write-ahead log sees it: a map from block numbers to sectors,
    one of which is the log header, and the effect of replaying that header. */
module LogDisk {

  const MAXOPBLOCKS: nat := 10
  const LOGSIZE: nat := 3 * MAXOPBLOCKS

  newtype Byte = x: int | 0 <= x < 256

  /** A sector holds file-system bytes, or the header structure kept at the first
      block of the log: a count and LOGSIZE home block numbers. */
  datatype Sector = Data(bytes: seq<Byte>) | Head(n: nat, block: seq<nat>)

  type Disk = map<nat, Sector>

  type Pos = x: int | 0 < x witness 1

  /** The two numbers `initlog` copies out of the superblock; NBUF, the number of buffers in
      the cache; and how many buffers all processes together may hold at once to read them:
      processes times buffers each. */
  datatype Geometry = Geometry(start: nat, size: nat, nbuf: nat, hands: Pos) {
    predicate InLog(b: nat) {
      start <= b < start + size
    }

    function Slot(i: nat): nat {
      start + 1 + i
    }
  }

  /** The home block numbers named by the on-disk header. */
  function Logged(g: Geometry, d: Disk): seq<nat>
    requires HasHead(g, d)
  {
    d[g.start].block[..d[g.start].n]
  }

  ghost predicate HasHead(g: Geometry, d: Disk) {
    && 0 < g.size
    && g.start in d
    && d[g.start].Head?
    && |d[g.start].block| == LOGSIZE
    && d[g.start].n <= LOGSIZE
  }

  /** `bl` can be replayed: distinct home blocks that exist, and a log block for each. */
  ghost predicate Entries(g: Geometry, d: Disk, bl: seq<nat>) {
    |bl| < g.size && Listed(g, d, bl)
  }

  /** `bl` names distinct home blocks that exist, as the log does. */
  ghost predicate Listed(g: Geometry, d: Disk, bl: seq<nat>) {
    && (forall i, j :: 0 <= i < j < |bl| ==> bl[i] != bl[j])
    && (forall i :: 0 <= i < |bl| ==> bl[i] in d && !g.InLog(bl[i]))
    && (forall b :: g.InLog(b) ==> b in d)
  }

  ghost predicate DiskOk(g: Geometry, d: Disk) {
    HasHead(g, d) && Entries(g, d, Logged(g, d))
  }

  /** Copy log block i to home block bl[i], for i = 0, 1, ... in that order. */
  function Replay(g: Geometry, d: Disk, bl: seq<nat>): Disk
    requires forall i :: 0 <= i < |bl| ==> g.Slot(i) in d
  {
    if bl == [] then d
    else Replay(g, d, bl[..|bl| - 1])[bl[|bl| - 1] := d[g.Slot(|bl| - 1)]]
  }

  /** What the disk holds once recovery has replayed the header it finds. */
  ghost function Recovered(g: Geometry, d: Disk): Disk
    requires DiskOk(g, d)
  {
    Replay(g, d, Logged(g, d))
  }

  /** The part of a disk outside the log. */
  ghost function Home(g: Geometry, d: Disk): Disk {
    map b | b in d && !g.InLog(b) :: d[b]
  }

  /** Replay writes exactly the listed blocks, each from its own log block. */
  lemma {:induction false} ReplayAt(g: Geometry, d: Disk, bl: seq<nat>)
    requires Entries(g, d, bl)
    ensures var r := Replay(g, d, bl);
      && r.Keys == d.Keys
      && (forall i :: 0 <= i < |bl| ==> r[bl[i]] == d[g.Slot(i)])
      && (forall b :: b in d && b !in bl ==> r[b] == d[b])
  {
    if bl != [] {
      ReplayAt(g, d, bl[..|bl| - 1]);
    }
  }

  /** Pointwise form of the home part of a recovered disk. */
  lemma RecoveredHome(g: Geometry, d: Disk)
    requires DiskOk(g, d)
    ensures var bl := Logged(g, d); var h := Home(g, Recovered(g, d));
      && (forall b :: b in h <==> b in d && !g.InLog(b))
      && (forall i :: 0 <= i < |bl| ==> h[bl[i]] == d[g.Slot(i)])
      && (forall b :: b in h && b !in bl ==> h[b] == d[b])
  {
    ReplayAt(g, d, Logged(g, d));
  }

  /** Disks with the same header, log blocks and unlisted home blocks recover alike. */
  lemma SameRecovery(g: Geometry, d: Disk, d': Disk, bl: seq<nat>)
    requires DiskOk(g, d) && DiskOk(g, d') && bl == Logged(g, d) == Logged(g, d') && d'.Keys == d.Keys
    requires forall i :: 0 <= i < |bl| ==> d'[g.Slot(i)] == d[g.Slot(i)]
    requires forall b :: b in d && !g.InLog(b) && b !in bl ==> d'[b] == d[b]
    ensures Home(g, Recovered(g, d')) == Home(g, Recovered(g, d))
  {
    RecoveredHome(g, d);
    RecoveredHome(g, d');
    var h, h' := Home(g, Recovered(g, d)), Home(g, Recovered(g, d'));
    forall b | b in h ensures b in h' && h'[b] == h[b] {
      if b in bl {
        var i :| 0 <= i < |bl| && bl[i] == b;
      }
    }
  }

  lemma StoredOk(g: Geometry, d: Disk, b: nat, x: Sector)
    requires DiskOk(g, d) && b in d && b != g.start
    ensures DiskOk(g, d[b := x]) && Logged(g, d[b := x]) == Logged(g, d) && d[b := x].Keys == d.Keys
  {
  }

  /** Writing a log block that the header does not name is invisible to recovery. */
  lemma LogWriteInvisible(g: Geometry, d: Disk, i: nat, x: Sector)
    requires DiskOk(g, d) && d[g.start].n <= i && i + 1 < g.size
    ensures DiskOk(g, d[g.Slot(i) := x])
    ensures Home(g, Recovered(g, d[g.Slot(i) := x])) == Home(g, Recovered(g, d))
  {
    assert g.InLog(g.Slot(i));
    StoredOk(g, d, g.Slot(i), x);
    SameRecovery(g, d, d[g.Slot(i) := x], Logged(g, d));
  }

  /** Writing a home block that the header names is invisible to recovery, because
      replay will overwrite it. */
  lemma InstallInvisible(g: Geometry, d: Disk, b: nat, x: Sector)
    requires DiskOk(g, d) && b in Logged(g, d)
    ensures DiskOk(g, d[b := x])
    ensures Home(g, Recovered(g, d[b := x])) == Home(g, Recovered(g, d))
  {
    StoredOk(g, d, b, x);
    forall i | 0 <= i < |Logged(g, d)| ensures d[b := x][g.Slot(i)] == d[g.Slot(i)] {
      assert g.InLog(g.Slot(i));
    }
    SameRecovery(g, d, d[b := x], Logged(g, d));
  }

  /** Clearing the header keeps what recovery yields once every logged block has
      reached its home. */
  lemma ClearInvisible(g: Geometry, d: Disk, block: seq<nat>)
    requires DiskOk(g, d) && |block| == LOGSIZE
    requires forall i :: 0 <= i < |Logged(g, d)| ==> d[Logged(g, d)[i]] == d[g.Slot(i)]
    ensures DiskOk(g, d[g.start := Head(0, block)])
    ensures Home(g, Recovered(g, d[g.start := Head(0, block)])) == Home(g, Recovered(g, d))
    ensures Home(g, Recovered(g, d)) == Home(g, d)
  {
    var d' := d[g.start := Head(0, block)];
    assert Logged(g, d') == [];
    RecoveredHome(g, d);
    RecoveredHome(g, d');
    var bl := Logged(g, d);
    forall b | b in Home(g, d)
      ensures Home(g, Recovered(g, d))[b] == d[b]
    {
      if b in bl {
        var i :| 0 <= i < |bl| && bl[i] == b;
      }
    }
  }
}
