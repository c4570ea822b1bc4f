/** The pipe: a ring of PIPESIZE bytes between two 32-bit counters that wrap, filled and
    emptied by any number of processes that give up the lock only while they sleep. A process
    is known by a number, and each byte by who wrote and who took it. */
module Pipe {

  type byte = bv8

  const PIPESIZE: nat := 512
  const WORD: nat := 0x1_0000_0000

  /** `Asleep` is a call that has not been woken again. */
  datatype Outcome<T> = Error | Done(value: T) | Asleep

  /** The size of the ring divides the range of the counters, so a counter that has
      wrapped still points into the ring where the unbounded count would. */
  lemma CounterIndex(count: nat)
    ensures count % WORD % PIPESIZE == count % PIPESIZE
  {
    var q := count / WORD;
    assert count == q * WORD + count % WORD;
    assert WORD == 0x80_0000 * PIPESIZE;
    assert count % PIPESIZE == (q * 0x80_0000 * PIPESIZE + count % WORD) % PIPESIZE;
    Multiple(q * 0x80_0000, count % WORD);
  }

  lemma Multiple(k: nat, r: nat)
    ensures (k * PIPESIZE + r) % PIPESIZE == r % PIPESIZE
  {
  }

  /** The difference of the wrapped counters is the difference of the counts. */
  lemma CounterDifference(taken: nat, written: nat)
    requires taken <= written <= taken + PIPESIZE
    ensures (written % WORD - taken % WORD) % WORD == written - taken
    ensures written % WORD == taken % WORD <==> written == taken
    ensures written % WORD == (taken % WORD + PIPESIZE) % WORD <==> written == taken + PIPESIZE
  {
  }

  lemma CounterStep(count: nat)
    ensures (count + 1) % WORD == (count % WORD + 1) % WORD
  {
  }

  /** Positions of the last PIPESIZE bytes are all different. */
  lemma SlotsDiffer(i: nat, j: nat)
    requires i < j < i + PIPESIZE
    ensures i % PIPESIZE != j % PIPESIZE
  {
  }

  /** Those of the bytes that are `who`'s, in order. */
  ghost function By(bytes: seq<byte>, ids: seq<nat>, who: nat): seq<byte>
    requires |bytes| == |ids|
  {
    if bytes == [] then []
    else
      var n := |bytes| - 1;
      By(bytes[..n], ids[..n], who) + if ids[n] == who then [bytes[n]] else []
  }

  lemma ByMore(bytes: seq<byte>, ids: seq<nat>, b: byte, id: nat, who: nat)
    requires |bytes| == |ids|
    ensures By(bytes + [b], ids + [id], who) == By(bytes, ids, who) + if id == who then [b] else []
  {
    assert (bytes + [b])[..|bytes|] == bytes && (ids + [id])[..|ids|] == ids;
  }

  /** What each process has written, or has taken. */
  type Ledger = nat -> seq<byte>

  function Added(f: Ledger, me: nat, b: byte): Ledger {
    (who: nat) => if who == me then f(who) + [b] else f(who)
  }

  /** The ledger is that of the bytes. The verifier unfolds this, and `Ring`, only where `Seal`
      is mentioned. */
  ghost predicate Balanced(bytes: seq<byte>, ids: seq<nat>, f: Ledger)
    requires |bytes| == |ids|
  {
    forall key: int {:trigger Seal(key)} :: Seal(key) ==> forall who :: By(bytes, ids, who) == f(who)
  }

  ghost predicate Seal(key: int) {
    true
  }

  lemma BalancedMore(bytes: seq<byte>, ids: seq<nat>, f: Ledger, b: byte, me: nat)
    requires |bytes| == |ids| && Balanced(bytes, ids, f)
    ensures Balanced(bytes + [b], ids + [me], Added(f, me, b))
  {
    assert Seal(0);
    forall who ensures By(bytes + [b], ids + [me], who) == Added(f, me, b)(who) {
      ByMore(bytes, ids, b, me, who);
    }
  }

  /** The ledger is the bytes, picked out by who wrote them. */
  lemma BalancedIs(bytes: seq<byte>, ids: seq<nat>, f: Ledger, who: nat)
    requires |bytes| == |ids| && Balanced(bytes, ids, f)
    ensures f(who) == By(bytes, ids, who)
  {
    assert Seal(0);
  }

  class Channel {
    const data: array<byte>
    var nread: nat
    var nwrite: nat
    var readopen: bool
    var writeopen: bool
    /** All bytes ever stored, and all bytes ever copied out, in order, and by whom. */
    ghost var written: seq<byte>
    ghost var writtenBy: seq<nat>
    ghost var taken: seq<byte>
    ghost var takenBy: seq<nat>
    ghost var wrote: Ledger
    ghost var took: Ledger
    /** Who is asleep on `nread` and on `nwrite`. */
    ghost var readers: set<nat>
    ghost var writers: set<nat>
    /** A writer that was killed or found no reader left has gone while readers slept. */
    ghost var deserted: bool

    ghost predicate Valid()
      reads this`written, this`writtenBy, this`taken, this`takenBy, this`wrote, this`took
      reads this`nread, this`nwrite, data
    {
      && data.Length == PIPESIZE && |writtenBy| == |written| && |takenBy| == |taken|
      && |taken| <= |written| <= |taken| + PIPESIZE && taken == written[..|taken|]
      && Ring() && Balanced(written, writtenBy, wrote) && Balanced(taken, takenBy, took)
    }

    /** The ring and its counters show what has been written and taken. */
    ghost predicate Ring()
      requires data.Length == PIPESIZE
      reads this`nread, this`nwrite, this`written, this`taken, data
    {
      forall key: int {:trigger Seal(key)} :: Seal(key) ==>
        && nread == |taken| % WORD && nwrite == |written| % WORD
        && forall k {:trigger written[k]} :: |taken| <= k < |written| ==> data[k % PIPESIZE] == written[k]
    }

    /** The test for a full ring. */
    predicate IsFull()
      requires Valid()
      reads this, data
      ensures IsFull() <==> |written| == |taken| + PIPESIZE
    {
      assert Seal(0);
      CounterDifference(|taken|, |written|);
      nwrite == (nread + PIPESIZE) % WORD
    }

    /** The test for an empty one. */
    predicate IsEmpty()
      requires Valid()
      reads this, data
      ensures IsEmpty() <==> |written| == |taken|
    {
      assert Seal(0);
      CounterDifference(|taken|, |written|);
      nread == nwrite
    }

    /** Nobody sleeps who could go on: a reader only if the ring is empty and a writer is left,
        a writer only if the ring is full and a reader is left. */
    ghost predicate Awake()
      reads this`written, this`taken, this`readers, this`writers, this`deserted, this`readopen, this`writeopen
    {
      (readers != {} && !deserted ==> |written| == |taken| && writeopen) && WritersAwake()
    }

    ghost predicate WritersAwake()
      reads this`written, this`taken, this`writers, this`readopen
    {
      writers != {} ==> |written| == |taken| + PIPESIZE && readopen
    }

    constructor ()
      ensures Valid() && written == [] && taken == [] && readopen && writeopen && fresh(data)
      ensures Awake() && readers == {} && writers == {} && !deserted
    {
      data := new byte[PIPESIZE];
      nread, nwrite, readopen, writeopen, written, taken := 0, 0, true, true, [], [];
      writtenBy, takenBy, readers, writers, deserted := [], [], {}, {}, false;
      wrote, took := _ => [], _ => [];
    }

    /** How many bytes wait in the ring, from the counters alone. */
    function Count(): nat
      reads this
    {
      (nwrite - nread) % WORD
    }

    /** The bytes waiting in the ring, from the ring and the counters alone. */
    function Waiting(k: nat): (w: seq<byte>)
      requires data.Length == PIPESIZE
      reads this, data
      ensures |w| == k
    {
      if k == 0 then [] else Waiting(k - 1) + [data[(nread + (k - 1)) % PIPESIZE]]
    }

    lemma {:induction false} WaitingIs(k: nat)
      requires Valid() && |taken| + k <= |written|
      ensures Waiting(k) == written[|taken|..|taken| + k]
    {
      assert Seal(0);
      if k > 0 {
        WaitingIs(k - 1);
        CounterIndex(|taken|);
        Offset(nread, |taken|, k - 1);
        assert written[|taken| + (k - 1)] == data[(|taken| + (k - 1)) % PIPESIZE];
      }
    }

    /** FIFO, whatever has happened: the bytes read so far followed by the bytes in the
        ring are the bytes written so far, and the ring is never over-full. */
    lemma Fifo()
      requires Valid()
      ensures Count() <= PIPESIZE && taken + Waiting(Count()) == written
    {
      assert Seal(0);
      CounterDifference(|taken|, |written|);
      WaitingIs(|written| - |taken|);
    }

    /** `p->data[p->nwrite++ % PIPESIZE] = b` where the ring has room. */
    method Put(b: byte, ghost me: nat)
      requires Valid() && |written| < |taken| + PIPESIZE
      modifies this`nwrite, this`written, this`writtenBy, this`wrote, data
      ensures Valid() && written == old(written) + [b] && wrote == Added(old(wrote), me, b)
    {
      assert Seal(0);
      CounterIndex(|written|);
      CounterStep(|written|);
      forall k | |taken| <= k < |written| ensures k % PIPESIZE != |written| % PIPESIZE {
        SlotsDiffer(k, |written|);
      }
      data[nwrite % PIPESIZE] := b;
      nwrite := (nwrite + 1) % WORD;
      BalancedMore(written, writtenBy, wrote, b, me);
      written, writtenBy, wrote := written + [b], writtenBy + [me], Added(wrote, me, b);
    }

    /** `p->data[p->nread++ % PIPESIZE]` where the ring is not empty. */
    method Take(ghost me: nat) returns (b: byte)
      requires Valid() && |taken| < |written|
      modifies this`nread, this`taken, this`takenBy, this`took
      ensures Valid() && b == written[|old(taken)|] && taken == old(taken) + [b] && took == Added(old(took), me, b)
    {
      assert Seal(0);
      CounterIndex(|taken|);
      CounterStep(|taken|);
      b := data[nread % PIPESIZE];
      assert written[|taken|] == b;
      nread := (nread + 1) % WORD;
      BalancedMore(taken, takenBy, took, b, me);
      taken, takenBy, took := taken + [b], takenBy + [me], Added(took, me, b);
    }

    /** `pipeclose`: one end is closed and those who sleep for its sake are woken. */
    method Close(writable: bool)
      requires Valid() && Awake()
      modifies this`readopen, this`writeopen, this`readers, this`writers
      ensures Valid() && Awake()
      ensures writeopen == (old(writeopen) && !writable) && readopen == (old(readopen) && writable)
      ensures readers == (if writable then {} else old(readers)) && writers == if writable then old(writers) else {}
    {
      if writable {
        writeopen := false;
        readers := {};
      } else {
        readopen := false;
        writers := {};
      }
    }

    /** Another writer stores a byte and wakes the readers, or goes without doing so. */
    method OtherPut(who: nat, b: byte, wakes: bool)
      requires Valid() && Awake() && |written| < |taken| + PIPESIZE
      modifies this, data
      ensures Valid() && Awake() && written == old(written) + [b] && wrote == Added(old(wrote), who, b)
      ensures taken == old(taken) && took == old(took) && readers <= old(readers) && writers == old(writers)
    {
      Put(b, who);
      if wakes {
        readers := {};
      } else {
        deserted := deserted || readers != {};
      }
    }

    /** In the name of `me`, `put` has been written and `got` taken; if `still`, nothing else has
        happened since. */
    twostate predicate Since(me: nat, put: seq<byte>, got: seq<byte>, still: bool)
      reads this`written, this`taken, this`wrote, this`took, this`readopen, this`writeopen
    {
      && old(written) <= written && old(taken) <= taken
      && wrote(me) == old(wrote)(me) + put && took(me) == old(took)(me) + got
      && (still ==>
            && written == old(written) + put && taken == old(taken) + got
            && readopen == old(readopen) && writeopen == old(writeopen))
    }

    /** What other calls do to the pipe while they hold its lock, one at a time. */
    method Other(me: nat, who: nat)
      requires Valid() && Awake() && who != me
      modifies this, data
      ensures Valid() && Awake() && Since(me, [], [], false)
    {
      if
      case !IsFull() =>
        var b: byte, wakes: bool :| true;
        OtherPut(who, b, wakes);
      case !IsEmpty() =>
        var _ := Take(who);
        writers := {};
      case true =>
        var writable: bool :| true;
        Close(writable);
      case IsEmpty() && writeopen =>
        readers := readers + {who};
      case IsFull() && readopen =>
        readers, writers := {}, writers + {who};
      case true =>
        readers, writers := readers - {who}, writers - {who};
      case true =>
        readers, writers := readers - {me}, writers - {me};
    }

    /** `sleep` on one of the channels, once `me` is among those asleep there, until it runs
        again: meanwhile other readers, writers and closers may do anything, but not in the
        name of `me`. */
    method Sleep(me: nat)
      requires Valid() && Awake()
      modifies this, data
      ensures Valid() && Awake() && Since(me, [], [], false) && me !in readers && me !in writers
    {
      var others: seq<nat> :| me !in others;
      for i := 0 to |others|
        invariant Valid() && Awake() && Since(me, [], [], false)
      {
        Other(me, others[i]);
      }
      readers, writers := readers - {me}, writers - {me};
    }

    /** A writer at a full ring wakes the readers and lies down. */
    method JoinWriters(me: nat)
      requires WritersAwake() && |written| == |taken| + PIPESIZE && readopen
      modifies this`readers, this`writers
      ensures Awake() && readers == {} && writers == old(writers) + {me}
    {
      readers := {};
      writers := writers + {me};
    }

    /** The waiting loop of `pipewrite`, with `wakes` wakeups to come: it ends with room in the
        ring, with an error because no reader is left or the process has been killed, as it is
        once it has been woken `mercy` times, or asleep. */
    method AwaitRoom(wakes: nat, mercy: nat, me: nat) returns (r: Outcome<nat>, woken: nat)
      requires Valid() && WritersAwake() && me !in readers && me !in writers
      modifies this, data
      ensures Valid() && WritersAwake() && Since(me, [], [], woken == 0)
      ensures woken <= wakes && woken <= mercy && me !in readers && (me in writers <==> r.Asleep?)
      ensures woken == 0 && !r.Asleep? ==> readers == old(readers)
      ensures woken == 0 ==> (deserted <==> old(deserted) || (r.Error? && readers != {}))
      ensures r.Done? ==> r.value + woken == wakes && |written| < |taken| + PIPESIZE
      ensures !r.Done? ==> Awake() && |written| == |taken| + PIPESIZE && (r.Asleep? ==> woken == wakes)
      ensures r.Error? ==> !readopen || woken == mercy
      ensures r.Asleep? ==> readopen && woken < mercy && readers == {}
      ensures old(|written| < |taken| + PIPESIZE) ==> woken == 0 && r.Done?
    {
      woken := 0;
      var left: nat := wakes;
      while IsFull()
        invariant Valid() && WritersAwake() && Since(me, [], [], woken == 0)
        invariant woken + left == wakes && woken <= mercy && me !in readers && me !in writers
        invariant woken == 0 ==> readers == old(readers) && deserted == old(deserted)
        invariant old(|written| < |taken| + PIPESIZE) ==> woken == 0
        decreases left
      {
        if !readopen || woken >= mercy {
          deserted := deserted || readers != {};
          return Error, woken;
        }
        JoinWriters(me);
        if left == 0 {
          return Asleep, woken;
        }
        left := left - 1;
        Sleep(me);
        woken := woken + 1;
      }
      r := Done(left);
    }

    /** One turn of the loop of `pipewrite`: the byte goes in once there is room. */
    method WriteByte(b: byte, wakes: nat, mercy: nat, me: nat) returns (r: Outcome<nat>, woken: nat)
      requires Valid() && WritersAwake() && me !in readers && me !in writers
      modifies this, data
      ensures Valid() && WritersAwake() && Since(me, if r.Done? then [b] else [], [], woken == 0)
      ensures woken <= wakes && woken <= mercy && me !in readers && (me in writers <==> r.Asleep?)
      ensures woken == 0 && !r.Asleep? ==> readers == old(readers)
      ensures woken == 0 ==> (deserted <==> old(deserted) || (r.Error? && readers != {}))
      ensures r.Done? ==> r.value + woken == wakes
      ensures !r.Done? ==> Awake() && |written| == |taken| + PIPESIZE && (r.Asleep? ==> woken == wakes)
      ensures r.Error? ==> !readopen || woken == mercy
      ensures r.Asleep? ==> readopen && woken < mercy && readers == {}
      ensures old(|written| < |taken| + PIPESIZE) ==> woken == 0 && r.Done?
    {
      r, woken := AwaitRoom(wakes, mercy, me);
      if r.Done? {
        Put(b, me);
      }
    }

    /** The caller's bytes, and no others in its name, go in in order, with other writers'
        bytes between them only if it has slept and been woken. It stops short only at a full ring: with an
        error when no reader is left or it has been killed, after `mercy` wakeups, and asleep
        when neither is so and `wakes` wakeups have come. Before it sleeps and when it is done
        it wakes the readers; when it fails it does not. */
    method PipeWrite(addr: seq<byte>, wakes: nat, mercy: nat, me: nat)
      returns (r: Outcome<nat>, ghost put: nat, woken: nat)
      requires Valid() && Awake() && me !in readers && me !in writers
      modifies this, data
      ensures Valid() && Awake() && put <= |addr| && Since(me, addr[..put], [], woken == 0)
      ensures r.Done? ==> put == |addr| == r.value && readers == {}
      ensures !r.Done? ==> put < |addr| && |written| == |taken| + PIPESIZE
      ensures woken <= wakes && woken <= mercy && (r.Asleep? ==> woken == wakes)
      ensures r.Error? ==> !readopen || woken == mercy
      ensures r.Asleep? ==> readopen && woken < mercy && readers == {}
      ensures me !in readers && (me in writers <==> r.Asleep?)
      ensures |old(written)| + |addr| <= |old(taken)| + PIPESIZE ==> woken == 0 && r.Done?
      ensures woken == 0 ==> (deserted <==> old(deserted) || (r.Error? && old(readers) != {}))
      ensures woken == 0 && r.Error? ==> readers == old(readers)
    {
      put, woken := 0, 0;
      var left: nat, i := wakes, 0;
      while i < |addr|
        invariant Valid() && WritersAwake() && i == put <= |addr| && Since(me, addr[..put], [], woken == 0)
        invariant woken + left == wakes && woken <= mercy && me !in readers && me !in writers
        invariant woken == 0 ==> readers == old(readers) && deserted == old(deserted)
        invariant |old(written)| + |addr| <= |old(taken)| + PIPESIZE ==> woken == 0
      {
        var more;
        r, more := WriteByte(addr[i], left, mercy - woken, me);
        woken := woken + more;
        if !r.Done? {
          return;
        }
        left := r.value;
        assert addr[..i + 1] == addr[..i] + [addr[i]];
        i, put := i + 1, put + 1;
      }
      readers := {};
      r := Done(|addr|);
    }

    /** The waiting loop of `piperead`: it ends when there is something to read or nobody to
        write it, with an error because the process has been killed, or asleep. */
    method AwaitData(wakes: nat, mercy: nat, me: nat) returns (r: Outcome<nat>, woken: nat)
      requires Valid() && Awake() && me !in readers && me !in writers
      modifies this, data
      ensures Valid() && Awake() && Since(me, [], [], woken == 0)
      ensures woken == 0 ==> deserted == old(deserted)
      ensures woken == 0 ==> readers == old(readers) + if r.Asleep? then {me} else {}
      ensures woken <= wakes && woken <= mercy && (r.Asleep? ==> woken == wakes)
      ensures me !in writers && (me in readers <==> r.Asleep?)
      ensures r.Done? <==> |taken| < |written| || !writeopen
      ensures r.Error? ==> woken == mercy
      ensures r.Asleep? ==> woken < mercy
      ensures old(|written| > |taken| || !writeopen) ==> woken == 0
    {
      var left: nat := wakes;
      woken := 0;
      while IsEmpty() && writeopen
        invariant Valid() && Awake() && Since(me, [], [], woken == 0)
        invariant woken + left == wakes && woken <= mercy && me !in readers && me !in writers
        invariant woken == 0 ==> readers == old(readers) && deserted == old(deserted)
        invariant old(|written| > |taken| || !writeopen) ==> woken == 0
        decreases left
      {
        if woken >= mercy {
          return Error, woken;
        }
        readers := readers + {me};
        if left == 0 {
          return Asleep, woken;
        }
        left := left - 1;
        Sleep(me);
        woken := woken + 1;
      }
      r := Done(left);
    }

    /** The copying loop of `piperead`, and the wakeup of the writers after it. */
    method Copy(n: nat, me: nat) returns (bytes: seq<byte>)
      requires Valid() && Awake() && (|taken| < |written| || !writeopen)
      modifies this`nread, this`taken, this`takenBy, this`took, this`writers
      ensures Valid() && Awake() && writers == {} && Since(me, [], bytes, true)
      ensures |bytes| <= n && (|bytes| < n ==> |taken| == |written|)
      ensures |bytes| <= |taken| && bytes == taken[|taken| - |bytes|..]
    {
      bytes := [];
      var i := 0;
      while i < n
        invariant Valid() && i == |bytes| <= n && Since(me, [], bytes, true)
      {
        if IsEmpty() {
          break;
        }
        var b := Take(me);
        bytes := bytes + [b];
        i := i + 1;
      }
      writers := {};
    }

    /** A reader gets the next bytes, in order and without a gap, and takes no others: as many
        as asked for or as there are; it returns none only when it asked for none or when the
        ring is empty and no writer is left. It fails or stays asleep only at an empty ring
        with a writer left, killed or not; when it is done it wakes the writers. */
    method PipeRead(n: nat, wakes: nat, mercy: nat, me: nat)
      returns (r: Outcome<seq<byte>>, woken: nat)
      requires Valid() && Awake() && me !in readers && me !in writers
      modifies this, data
      ensures Valid() && Awake() && Since(me, [], if r.Done? then r.value else [], woken == 0)
      ensures r.Done? ==> |r.value| <= n && |r.value| <= |taken| && r.value == taken[|taken| - |r.value|..]
      ensures r.Done? && |r.value| < n ==> |taken| == |written|
      ensures r.Done? && n > 0 && r.value == [] ==> !writeopen
      ensures r.Done? ==> writers == {}
      ensures !r.Done? ==> |taken| == |written| && writeopen
      ensures woken <= wakes && woken <= mercy && (r.Asleep? ==> woken == wakes)
      ensures r.Error? ==> woken == mercy
      ensures r.Asleep? ==> woken < mercy
      ensures me !in writers && (me in readers <==> r.Asleep?)
      ensures old(|written| > |taken| || !writeopen) ==> woken == 0 && r.Done?
      ensures woken == 0 ==> deserted == old(deserted)
      ensures woken == 0 ==> readers == old(readers) + if r.Asleep? then {me} else {}
    {
      var w;
      w, woken := AwaitData(wakes, mercy, me);
      match w {
        case Error => r := Error;
        case Asleep => r := Asleep;
        case Done(_) =>
          var bytes := Copy(n, me);
          r := Done(bytes);
      }
    }
  }

  /** A reader is asleep and the pipe full, with a writer left: the writer whose bytes should
      have woken it filled the ring, was killed and left without a wakeup. */
  method KilledWriter() returns (c: Channel)
    ensures c.Valid() && c.readers != {} && c.writeopen && |c.written| == |c.taken| + PIPESIZE
    ensures fresh(c)
  {
    c := new Channel();
    var r, _ := c.PipeRead(1, 0, 1, 0);
    var w, _, _ := c.PipeWrite(seq(PIPESIZE + 1, _ => 0), 0, 0, 1);
  }

  lemma Offset(r: nat, t: nat, k: nat)
    requires r % PIPESIZE == t % PIPESIZE
    ensures (r + k) % PIPESIZE == (t + k) % PIPESIZE
  {
    Multiple(r / PIPESIZE, r % PIPESIZE + k);
    Multiple(t / PIPESIZE, t % PIPESIZE + k);
    assert r == r / PIPESIZE * PIPESIZE + r % PIPESIZE && t == t / PIPESIZE * PIPESIZE + t % PIPESIZE;
  }
}
