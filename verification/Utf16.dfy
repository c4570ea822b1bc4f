/** Conversion between UTF-8 and UTF-16, counting, walking back, and the unchecked forms. */
module Utf16 {
  import opened Utf8Bits
  import opened Utf8

  // ---------------------------------------------------------------- next, prior, distance

  /** The checked `next`. */
  method NextCodePoint(s: seq<octet>, i: nat, end: nat) returns (r: Result<u32>, it: nat)
    requires i < end <= |s|
    ensures i <= it <= end
    ensures match Next(s, i, end)
      case Good(cp, n) => r == Ok(cp) && it == i + n
      case Bad(e) => r == Err(Throw(s, i, e)) && it == i
  {
    var err, cp;
    err, it, cp := ValidateNext(s, i, end);
    match err {
      case Utf8Ok => r := Ok(cp);
      case NotEnoughRoom => r := Err(NoRoom);
      case InvalidCodePoint => r := Err(BadCodePoint(cp));
      case InvalidLead => r := Err(BadOctet(s[it]));
      case IncompleteSequence => r := Err(BadOctet(s[it]));
      case OverlongSequence => r := Err(BadOctet(s[it]));
    }
  }

  /** `Underrun` is a read before the first octet, which `prior` makes when it meets only
      trail octets: its test against `start` comes after the read. */
  datatype Back = Found(r: Result<u32>, pos: nat) | Underrun

  /** The nearest octet before `it` that is not a trail octet, decoded up to `it`; from the
      end of a sequence that is the sequence, so `prior` undoes `next`. */
  method Prior(s: seq<octet>, it: nat) returns (b: Back)
    requires it <= |s|
    ensures b.Underrun? <==> forall j :: 0 <= j < it ==> IsTrail(s[j])
    ensures b.Found? ==> b.pos < it && !IsTrail(s[b.pos]) && forall j :: b.pos < j < it ==> IsTrail(s[j])
    ensures b.Found? ==> match Next(s, b.pos, it)
      case Good(cp, _) => b.r == Ok(cp)
      case Bad(e) => b.r == Err(Throw(s, b.pos, e))
    ensures forall p: nat :: p < |s| && EndsAt(s, p, it) ==> b == Found(Ok(Next(s, p, |s|).cp), p)
  {
    var q := it;
    while true
      invariant 0 <= q <= it && forall j :: q <= j < it ==> IsTrail(s[j])
      decreases q
    {
      if q == 0 {
        NoSequence(s, it);
        return Underrun;
      }
      q := q - 1;
      if !IsTrail(s[q]) {
        break;
      }
    }
    var r, _ := NextCodePoint(s, q, it);
    b := Found(r, q);
    forall p: nat | p < |s| && EndsAt(s, p, it) ensures b == Found(Ok(Next(s, p, |s|).cp), p) {
      PriorUndoesNext(s, p, q, it);
    }
  }

  /** The checked `next` moves from p to `it`. */
  predicate EndsAt(s: seq<octet>, p: nat, it: nat)
    requires p < |s|
  {
    Next(s, p, |s|).Good? && p + Next(s, p, |s|).n == it
  }

  /** The nearest octet before the end of a sequence that is not a trail octet begins it. */
  lemma PriorUndoesNext(s: seq<octet>, p: nat, q: nat, it: nat)
    requires p < |s| && EndsAt(s, p, it)
    requires q < it <= |s| && !IsTrail(s[q]) && forall j :: q < j < it ==> IsTrail(s[j])
    ensures q == p && Next(s, p, it) == Next(s, p, |s|)
  {
    var cp, n := Next(s, p, |s|).cp, Next(s, p, |s|).n;
    NextExact(s, p, |s|, cp, n);
    NextComplete(s, p, it, cp);
    TrailsOk(s, p, |s|, 1, n);
    LeadIsNoTrail(s[p]);
    assert p < q ==> TrailAt(s, p, |s|, q - p);
  }

  lemma NoSequence(s: seq<octet>, it: nat)
    requires it <= |s| && forall j :: 0 <= j < it ==> IsTrail(s[j])
    ensures forall p: nat :: p < |s| ==> !EndsAt(s, p, it)
  {
    forall p: nat | p < |s| ensures !EndsAt(s, p, it) {
      if EndsAt(s, p, it) {
        LeadIsNoTrail(s[p]);
      }
    }
  }

  lemma LeadIsNoTrail(a: octet)
    requires SequenceLength(a) != 0
    ensures !IsTrail(a)
  {
  }

  /** The number of code points, or the exception at the first fault. */
  method Distance(s: seq<octet>, first: nat, last: nat) returns (r: Result<nat>)
    requires first <= last <= |s|
    ensures match Decode(s, first, last)
      case Ok(cps) => r == Ok(|cps|)
      case Err(e) => r == Err(e)
  {
    var it, dist := first, 0;
    while it < last
      invariant first <= it <= last
      invariant match Decode(s, it, last)
        case Ok(cps) => Decode(s, first, last).Ok? && |Decode(s, first, last).value| == dist + |cps|
        case Err(e) => Decode(s, first, last) == Err(e)
      decreases last - it
    {
      var c, next := NextCodePoint(s, it, last);
      if c.Err? {
        return Err(c.error);
      }
      it, dist := next, dist + 1;
    }
    r := Ok(dist);
  }

  lemma JoinAt(s: seq<octet>, i: nat, n: nat)
    requires 1 <= n <= 4 && i + n <= |s|
    ensures Join(s[i..i + n]) == if n == 1 then s[i] as u32 else if n == 2 then Join2(s[i], s[i + 1])
      else if n == 3 then Join3(s[i], s[i + 1], s[i + 2]) else Join4(s[i], s[i + 1], s[i + 2], s[i + 3])
  {
    var t := s[i..i + n];
    assert t[0] == s[i];
    assert n >= 2 ==> t[1] == s[i + 1];
    assert n >= 3 ==> t[2] == s[i + 2];
    assert n >= 4 ==> t[3] == s[i + 3];
  }

  /** What a reader that tests nothing gets at i. */
  function Raw(s: seq<octet>, i: nat): (u32, nat)
    requires i < |s| && i + SequenceLength(s[i]) <= |s|
  {
    var n := SequenceLength(s[i]);
    if n <= 1 then (s[i] as u32, i + 1) else if n == 2 then (Join2(s[i], s[i + 1]), i + 2)
    else if n == 3 then (Join3(s[i], s[i + 1], s[i + 2]), i + 3)
    else (Join4(s[i], s[i + 1], s[i + 2], s[i + 3]), i + 4)
  }

  /** Where the checked form finds a code point, the raw reading is the same. */
  lemma RawRefines(s: seq<octet>, i: nat, end: nat)
    requires i < end <= |s| && Next(s, i, end).Good?
    ensures i + SequenceLength(s[i]) <= |s|
    ensures Raw(s, i) == (Next(s, i, end).cp, i + Next(s, i, end).n)
  {
    var n := SequenceLength(s[i]);
    TrailsOk(s, i, end, 1, n);
    JoinAt(s, i, n);
  }

  /** `unchecked::next`: no test of any kind. */
  method UncheckedNext(s: seq<octet>, i: nat) returns (cp: u32, it: nat)
    requires i < |s| && i + SequenceLength(s[i]) <= |s|
    ensures (cp, it) == Raw(s, i)
  {
    it, cp := i, s[i] as u32;
    var length := SequenceLength(s[i]);
    if length == 2 {
      it := it + 1;
      cp := ((cp << 6) & 0x7ff) + ((s[it] as u32) & 0x3f);
      assert cp == Join2(s[i], s[i + 1]);
    } else if length == 3 {
      it := it + 1;
      cp := ((cp << 12) & 0xffff) + (((s[it] as u32) << 6) & 0xfff);
      it := it + 1;
      cp := cp + ((s[it] as u32) & 0x3f);
      assert cp == Join3(s[i], s[i + 1], s[i + 2]);
    } else if length == 4 {
      it := it + 1;
      cp := ((cp << 18) & 0x1fffff) + (((s[it] as u32) << 12) & 0x3ffff);
      it := it + 1;
      cp := cp + (((s[it] as u32) << 6) & 0xfff);
      it := it + 1;
      cp := cp + ((s[it] as u32) & 0x3f);
      assert cp == Join4(s[i], s[i + 1], s[i + 2], s[i + 3]);
    }
    it := it + 1;
  }

  /** `unchecked::prior`: from the end of a sequence of a text it goes back to its start
      and reads it, as the checked form does. */
  method UncheckedPrior(s: seq<octet>, it: nat, ghost p: nat) returns (cp: u32, pos: nat)
    requires it <= |s| && p < |s| && EndsAt(s, p, it)
    ensures pos == p && cp == Next(s, p, |s|).cp
  {
    LeadIsNoTrail(s[p]);
    pos := it - 1;
    while IsTrail(s[pos])
      invariant p <= pos < it && forall j :: pos < j < it ==> IsTrail(s[j])
      decreases pos
    {
      pos := pos - 1;
    }
    PriorUndoesNext(s, p, pos, it);
    RawRefines(s, p, |s|);
    var temp;
    cp, temp := UncheckedNext(s, pos);
  }

  // ---------------------------------------------------------------- UTF-16

  function EncodeAll16(cps: seq<u32>): seq<u16> {
    if cps == [] then [] else Encode16(cps[0]) + EncodeAll16(cps[1..])
  }

  /** The value of the one or two words at position i, and how many they are. */
  function Words(u: seq<u16>, i: nat): (r: Result<(u32, nat)>)
    requires i < |u|
    ensures r.Ok? ==> 1 <= r.value.1 <= |u| - i
  {
    var w := u[i] as u32;
    if IsLeadSurrogate(w) then
      if i + 1 == |u| then Err(BadWord(u[i]))
      else if !IsTrailSurrogate(u[i + 1] as u32) then Err(BadWord(u[i + 1]))
      else Ok((Pair(w, u[i + 1] as u32), 2))
    else if IsTrailSurrogate(w) then Err(BadWord(u[i]))
    else Ok((w, 1))
  }

  /** The code point read at position i of a UTF-16 string and the words it takes. */
  function Next16(u: seq<u16>, i: nat): (r: Result<(u32, nat)>)
    requires i < |u|
    ensures r.Ok? ==> 1 <= r.value.1 <= |u| - i
  {
    match Words(u, i)
    case Err(e) => Err(e)
    case Ok((cp, n)) => if IsCodePointValid(cp) then Ok((cp, n)) else Err(BadCodePoint(cp))
  }

  function Decode16(u: seq<u16>, i: nat): Result<seq<u32>>
    requires i <= |u|
    decreases |u| - i
  {
    if i == |u| then Ok([])
    else match Next16(u, i)
      case Err(e) => Err(e)
      case Ok((cp, n)) =>
        match Decode16(u, i + n)
        case Ok(cps) => Ok([cp] + cps)
        case Err(e) => Err(e)
  }

  lemma PairSlice(u: seq<u16>, i: nat)
    ensures i + 1 <= |u| ==> u[i..i + 1] == [u[i]]
    ensures i + 2 <= |u| ==> u[i..i + 2] == [u[i], u[i + 1]]
  {
  }

  lemma Next16Pair(u: seq<u16>, i: nat)
    requires i + 1 < |u| && IsLeadSurrogate(u[i] as u32) && IsTrailSurrogate(u[i + 1] as u32)
    ensures u[i..i + 2] == Encode16(Pair(u[i] as u32, u[i + 1] as u32))
  {
    PairSlice(u, i);
    PairRead(u[i], u[i + 1]);
  }

  lemma Next16Single(u: seq<u16>, i: nat)
    requires i < |u| && IsCodePointValid(u[i] as u32)
    ensures var cp := u[i] as u32; |Encode16(cp)| == 1 && u[i..i + 1] == Encode16(cp)
  {
    PairSlice(u, i);
    WordRead(u[i]);
  }

  lemma Next16Sound(u: seq<u16>, i: nat, cp: u32, n: nat)
    requires i < |u| && Next16(u, i) == Ok((cp, n))
    ensures IsCodePointValid(cp) && n == |Encode16(cp)| && i + n <= |u| && u[i..i + n] == Encode16(cp)
  {
    if IsLeadSurrogate(u[i] as u32) {
      Next16Pair(u, i);
      PairRead(u[i], u[i + 1]);
    } else {
      Next16Single(u, i);
    }
  }

  lemma Next16CompletePair(u: seq<u16>, i: nat, cp: u32)
    requires IsCodePointValid(cp) && cp > 0xffff && i + 2 <= |u| && [u[i], u[i + 1]] == Encode16(cp)
    ensures Next16(u, i) == Ok((cp, 2))
  {
    PairWritten(cp);
    assert u[i] == Encode16(cp)[0] && u[i + 1] == Encode16(cp)[1];
    WordsPair(u, i, cp);
  }

  lemma Next16CompleteSingle(u: seq<u16>, i: nat, cp: u32)
    requires IsCodePointValid(cp) && cp <= 0xffff && i < |u| && [u[i]] == Encode16(cp)
    ensures Next16(u, i) == Ok((cp, 1))
  {
    WordWritten(cp);
    assert u[i] == Encode16(cp)[0];
    WordsSingle(u, i, cp);
  }

  lemma Next16Complete(u: seq<u16>, i: nat, cp: u32)
    requires IsCodePointValid(cp) && i + |Encode16(cp)| <= |u| && u[i..i + |Encode16(cp)|] == Encode16(cp)
    ensures i < |u| && Next16(u, i) == Ok((cp, |Encode16(cp)|))
  {
    PairSlice(u, i);
    if cp > 0xffff {
      PairWritten(cp);
      Next16CompletePair(u, i, cp);
    } else {
      WordWritten(cp);
      Next16CompleteSingle(u, i, cp);
    }
  }

  lemma WordsPair(u: seq<u16>, i: nat, cp: u32)
    requires i + 2 <= |u| && IsLeadSurrogate(u[i] as u32) && IsTrailSurrogate(u[i + 1] as u32)
    requires Pair(u[i] as u32, u[i + 1] as u32) == cp
    ensures Words(u, i) == Ok((cp, 2))
  {
  }

  lemma WordsSingle(u: seq<u16>, i: nat, cp: u32)
    requires i < |u| && u[i] as u32 == cp && !IsSurrogate(cp)
    ensures Words(u, i) == Ok((cp, 1))
  {
    NoSurrogate(cp);
  }

  /** Reading words succeeds with cp exactly where `utf8to16` would have written cp. */
  lemma Next16Exact(u: seq<u16>, i: nat, cp: u32, n: nat)
    requires i < |u|
    ensures Next16(u, i) == Ok((cp, n)) <==>
      IsCodePointValid(cp) && n == |Encode16(cp)| && i + n <= |u| && u[i..i + n] == Encode16(cp)
  {
    if Next16(u, i) == Ok((cp, n)) {
      Next16Sound(u, i, cp, n);
    }
    if IsCodePointValid(cp) && n == |Encode16(cp)| && i + n <= |u| && u[i..i + n] == Encode16(cp) {
      Next16Complete(u, i, cp);
    }
  }

  lemma {:induction false} Decode16Sound(u: seq<u16>, i: nat)
    requires i <= |u| && Decode16(u, i).Ok?
    ensures AllValid(Decode16(u, i).value) && EncodeAll16(Decode16(u, i).value) == u[i..]
    decreases |u| - i
  {
    if i < |u| {
      var (cp, n) := Next16(u, i).value;
      Next16Exact(u, i, cp, n);
      Decode16Sound(u, i + n);
      assert u[i..] == u[i..i + n] + u[i + n..];
    }
  }

  lemma Decode16Step(u: seq<u16>, i: nat, cp: u32, n: nat, rest: seq<u32>)
    requires i < |u| && Next16(u, i) == Ok((cp, n)) && Decode16(u, i + n) == Ok(rest)
    ensures Decode16(u, i) == Ok([cp] + rest)
  {
  }

  lemma FirstDecoded16(u: seq<u16>, i: nat, cps: seq<u32>)
    requires i <= |u| && AllValid(cps) && cps != [] && EncodeAll16(cps) == u[i..]
    ensures var n: nat := |Encode16(cps[0])|;
      i + n <= |u| && Next16(u, i) == Ok((cps[0], n)) && EncodeAll16(cps[1..]) == u[i + n..]
  {
    HeadTail16(u, i, cps);
    Next16Complete(u, i, cps[0]);
  }

  lemma {:induction false} Decode16Complete(u: seq<u16>, i: nat, cps: seq<u32>)
    requires i <= |u| && AllValid(cps) && EncodeAll16(cps) == u[i..]
    ensures Decode16(u, i) == Ok(cps)
    decreases |cps|
  {
    if cps != [] {
      var n := |Encode16(cps[0])|;
      FirstDecoded16(u, i, cps);
      Decode16Complete(u, i + n, cps[1..]);
      Decode16Step(u, i, cps[0], n, cps[1..]);
      assert cps == [cps[0]] + cps[1..];
    }
  }

  lemma HeadTail16(u: seq<u16>, i: nat, cps: seq<u32>)
    requires i <= |u| && cps != [] && EncodeAll16(cps) == u[i..]
    ensures var n := |Encode16(cps[0])|;
      i + n <= |u| && u[i..i + n] == Encode16(cps[0]) && EncodeAll16(cps[1..]) == u[i + n..]
  {
    assert u[i..] == u[i..|u|];
    Sliced(u, i, |u|, Encode16(cps[0]), EncodeAll16(cps[1..]));
  }

  lemma {:induction false} EncodeAll16Snoc(cps: seq<u32>, cp: u32)
    ensures EncodeAll16(cps + [cp]) == EncodeAll16(cps) + Encode16(cp)
  {
    if cps == [] {
      assert cps + [cp] == [cp] && [cp][1..] == [];
      Assoc(Encode16(cp), [], []);
    } else {
      EncodeAll16Snoc(cps[1..], cp);
      assert (cps + [cp])[0] == cps[0] && (cps + [cp])[1..] == cps[1..] + [cp];
      Assoc(Encode16(cps[0]), EncodeAll16(cps[1..]), Encode16(cp));
    }
  }

  /** Converting a text to UTF-16 and back gives the text, and the other way round. */
  lemma RoundTrip(s: seq<octet>, u: seq<u16>)
    ensures Decode(s, 0, |s|).Ok? ==>
      var cps := Decode(s, 0, |s|).value;
      Decode16(EncodeAll16(cps), 0) == Ok(cps) && EncodeAll(cps) == s
    ensures Decode16(u, 0).Ok? ==>
      var cps := Decode16(u, 0).value;
      Decode(EncodeAll(cps), 0, |EncodeAll(cps)|) == Ok(cps) && EncodeAll16(cps) == u
  {
    assert s[0..|s|] == s && u[0..] == u;
    if Decode(s, 0, |s|).Ok? {
      var cps := Decode(s, 0, |s|).value;
      DecodeSound(s, 0, |s|);
      assert EncodeAll16(cps)[0..] == EncodeAll16(cps);
      Decode16Complete(EncodeAll16(cps), 0, cps);
    }
    if Decode16(u, 0).Ok? {
      var cps := Decode16(u, 0).value;
      Decode16Sound(u, 0);
      assert EncodeAll(cps)[0..|EncodeAll(cps)|] == EncodeAll(cps);
      DecodeComplete(EncodeAll(cps), 0, |EncodeAll(cps)|, cps);
    }
  }

  // ---------------------------------------------------------------- the conversions

  /** The stores of both forms of `utf8to16`, one word at a time. */
  method WriteWords(cp: u32, result: seq<u16>) returns (r: seq<u16>)
    ensures r == result + Encode16(cp)
  {
    if cp > 0xffff {
      var lead, trail := Low16((cp >> 10) + LEAD_OFFSET), Low16((cp & 0x3ff) + 0xdc00);
      r := result + [lead] + [trail];
      assert r == result + [lead, trail];
    } else {
      r := result + [Low16(cp)];
    }
  }

  method Utf8To16(s: seq<octet>) returns (r: Result<seq<u16>>)
    ensures match Decode(s, 0, |s|)
      case Ok(cps) => r == Ok(EncodeAll16(cps))
      case Err(e) => r == Err(e)
  {
    var it, result := 0, [];
    ghost var cps: seq<u32> := [];
    AheadStart(Decode(s, 0, |s|));
    while it != |s|
      invariant it <= |s| && result == EncodeAll16(cps)
      invariant Decode(s, 0, |s|) == After(cps, Decode(s, it, |s|))
      decreases |s| - it
    {
      var c, next := NextCodePoint(s, it, |s|);
      if c.Err? {
        return Err(c.error);
      }
      var cp := c.value;
      result := WriteWords(cp, result);
      EncodeAll16Snoc(cps, cp);
      AheadStep(s, it, next, cp, cps);
      it, cps := next, cps + [cp];
    }
    assert cps + [] == cps;
    r := Ok(result);
  }

  /** What decoding gives in all once cps have been decoded and `rest` is what is ahead. */
  function After(cps: seq<u32>, rest: Result<seq<u32>>): Result<seq<u32>> {
    match rest
    case Ok(more) => Ok(cps + more)
    case Err(e) => Err(e)
  }

  lemma AheadStart(rest: Result<seq<u32>>)
    ensures After([], rest) == rest
  {
    if rest.Ok? {
      assert [] + rest.value == rest.value;
    }
  }

  lemma AheadStep(s: seq<octet>, it: nat, next: nat, cp: u32, cps: seq<u32>)
    requires it < next <= |s| && Next(s, it, |s|) == Good(cp, next - it)
    ensures After(cps, Decode(s, it, |s|)) == After(cps + [cp], Decode(s, next, |s|))
    ensures Decode(s, it, |s|).Ok? <==> Decode(s, next, |s|).Ok?
  {
    var rest := Decode(s, next, |s|);
    if rest.Ok? {
      assert cps + ([cp] + rest.value) == cps + [cp] + rest.value;
    }
  }

  lemma AheadStep16(u: seq<u16>, i: nat, next: nat, cp: u32, cps: seq<u32>)
    requires i < next <= |u| && Next16(u, i) == Ok((cp, next - i))
    ensures After(cps, Decode16(u, i)) == After(cps + [cp], Decode16(u, next))
    ensures Decode16(u, i).Ok? <==> Decode16(u, next).Ok?
  {
    var rest := Decode16(u, next);
    if rest.Ok? {
      assert cps + ([cp] + rest.value) == cps + [cp] + rest.value;
    }
  }

  /** `append` throws on an invalid code point before it writes anything. */
  method Append(cp: u32, result: seq<octet>) returns (r: Result<seq<octet>>)
    ensures r == if IsCodePointValid(cp) then Ok(result + Encode(cp)) else Err(BadCodePoint(cp))
  {
    if !IsCodePointValid(cp) {
      return Err(BadCodePoint(cp));
    }
    if cp < 0x80 {
      r := Ok(result + [Low8(cp)]);
    } else if cp < 0x800 {
      var a, b := Low8((cp >> 6) | 0xc0), Low8((cp & 0x3f) | 0x80);
      r := Ok(result + [a] + [b]);
      assert result + [a] + [b] == result + [a, b];
    } else if cp < 0x10000 {
      var a, b, c := Low8((cp >> 12) | 0xe0), Low8(((cp >> 6) & 0x3f) | 0x80), Low8((cp & 0x3f) | 0x80);
      r := Ok(result + [a] + [b] + [c]);
      assert result + [a] + [b] + [c] == result + [a, b, c];
    } else {
      var a, b := Low8((cp >> 18) | 0xf0), Low8(((cp >> 12) & 0x3f) | 0x80);
      var c, d := Low8(((cp >> 6) & 0x3f) | 0x80), Low8((cp & 0x3f) | 0x80);
      r := Ok(result + [a] + [b] + [c] + [d]);
      assert result + [a] + [b] + [c] + [d] == result + [a, b, c, d];
    }
  }

  /** One turn of the loop of `utf16to8`, up to the call of `append`. */
  method ReadWords(u: seq<u16>, start: nat) returns (r: Result<u32>, i: nat)
    requires start < |u|
    ensures start < i <= |u|
    ensures Words(u, start) == if r.Ok? then Ok((r.value, i - start)) else Err(r.error)
  {
    i := start;
    var cp := u[i] as u32;
    i := i + 1;
    if IsLeadSurrogate(cp) {
      if i != |u| {
        var trail := u[i] as u32;
        i := i + 1;
        if IsTrailSurrogate(trail) {
          cp := (cp << 10) + trail + SURROGATE_OFFSET;
        } else {
          return Err(BadWord(u[i - 1])), i;
        }
      } else {
        return Err(BadWord(u[i - 1])), i;
      }
    } else if IsTrailSurrogate(cp) {
      return Err(BadWord(u[i - 1])), i;
    }
    r := Ok(cp);
  }

  method Utf16To8(u: seq<u16>) returns (r: Result<seq<octet>>)
    ensures match Decode16(u, 0)
      case Ok(cps) => r == Ok(EncodeAll(cps))
      case Err(e) => r == Err(e)
  {
    var i, result := 0, [];
    ghost var cps: seq<u32> := [];
    AheadStart(Decode16(u, 0));
    while i != |u|
      invariant i <= |u| && result == EncodeAll(cps)
      invariant Decode16(u, 0) == After(cps, Decode16(u, i))
      decreases |u| - i
    {
      ghost var start := i;
      var c;
      c, i := ReadWords(u, i);
      if c.Err? {
        return Err(c.error);
      }
      r := Append(c.value, result);
      if r.Err? {
        return;
      }
      result := r.value;
      EncodeAllSnoc(cps, c.value);
      AheadStep16(u, start, i, c.value, cps);
      cps := cps + [c.value];
    }
    assert cps + [] == cps;
    r := Ok(result);
  }

  /** `unchecked::utf8to16`, which only asks that the input be a text, writes what the
      checked form writes. */
  method UncheckedUtf8To16(s: seq<octet>) returns (r: seq<u16>)
    requires IsText(s)
    ensures Decode(s, 0, |s|).Ok? && r == EncodeAll16(Decode(s, 0, |s|).value)
  {
    assert s[..|s|] == s;
    TextDecodes(s, |s|);
    var it := 0;
    r := [];
    ghost var cps: seq<u32> := [];
    AheadStart(Decode(s, 0, |s|));
    while it != |s|
      invariant it <= |s| && r == EncodeAll16(cps)
      invariant Decode(s, it, |s|).Ok? && Decode(s, 0, |s|) == After(cps, Decode(s, it, |s|))
      decreases |s| - it
    {
      RawRefines(s, it, |s|);
      var cp, next := UncheckedNext(s, it);
      r := WriteWords(cp, r);
      EncodeAll16Snoc(cps, cp);
      AheadStep(s, it, next, cp, cps);
      it, cps := next, cps + [cp];
    }
    assert cps + [] == cps;
  }

  /** `unchecked::append`: no test of the code point. */
  method UncheckedAppend(cp: u32, result: seq<octet>) returns (r: seq<octet>)
    ensures r == result + Encode(cp)
  {
    if cp < 0x80 {
      r := result + [Low8(cp)];
    } else if cp < 0x800 {
      var a, b := Low8((cp >> 6) | 0xc0), Low8((cp & 0x3f) | 0x80);
      r := result + [a] + [b];
      assert r == result + [a, b];
    } else if cp < 0x10000 {
      var a, b, c := Low8((cp >> 12) | 0xe0), Low8(((cp >> 6) & 0x3f) | 0x80), Low8((cp & 0x3f) | 0x80);
      r := result + [a] + [b] + [c];
      assert r == result + [a, b, c];
    } else {
      var a, b := Low8((cp >> 18) | 0xf0), Low8(((cp >> 12) & 0x3f) | 0x80);
      var c, d := Low8(((cp >> 6) & 0x3f) | 0x80), Low8((cp & 0x3f) | 0x80);
      r := result + [a] + [b] + [c] + [d];
      assert r == result + [a, b, c, d];
    }
  }

  /** `unchecked::utf16to8` on the UTF-16 of a text writes what the checked form writes. */
  method UncheckedUtf16To8(u: seq<u16>) returns (r: seq<octet>)
    requires Decode16(u, 0).Ok?
    ensures r == EncodeAll(Decode16(u, 0).value)
  {
    var i := 0;
    r := [];
    ghost var cps: seq<u32> := [];
    AheadStart(Decode16(u, 0));
    while i != |u|
      invariant i <= |u| && r == EncodeAll(cps)
      invariant Decode16(u, i).Ok? && Decode16(u, 0) == After(cps, Decode16(u, i))
      decreases |u| - i
    {
      assert Next16(u, i).Ok?;
      ghost var start := i;
      var cp := u[i] as u32;
      i := i + 1;
      if IsLeadSurrogate(cp) {
        var trail := u[i] as u32;
        i := i + 1;
        cp := (cp << 10) + trail + SURROGATE_OFFSET;
      }
      r := UncheckedAppend(cp, r);
      EncodeAllSnoc(cps, cp);
      AheadStep16(u, start, i, cp, cps);
      cps := cps + [cp];
    }
    assert cps + [] == cps;
  }

  /** The example program's check of a line: it never reports an error, whatever the line. */
  method CheckLine(line: seq<octet>) returns (fine: nat, length: Result<nat>, sameAgain: bool)
    ensures fine <= |line| && IsText(line[..fine]) && length.Ok? && sameAgain
    ensures Decode(line[..fine], 0, fine).Ok? && length.value == |Decode(line[..fine], 0, fine).value|
  {
    fine := FindInvalid(line);
    var valid := line[..fine];
    assert valid[..fine] == valid;
    TextDecodes(valid, fine);
    length := Distance(valid, 0, fine);
    var wide := Utf8To16(valid);
    var again := Utf16To8(wide.value);
    RoundTrip(valid, wide.value);
    sameAgain := again == Ok(valid);
  }
}
