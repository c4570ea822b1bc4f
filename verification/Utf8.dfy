/** Checked UTF-8 decoding: one sequence, whole texts, the search for the first invalid
    octet, and walking backwards. Iterators are positions in the octet sequence. */
module Utf8 {
  import opened Utf8Bits

  datatype UtfError = Utf8Ok | NotEnoughRoom | InvalidLead | IncompleteSequence | OverlongSequence | InvalidCodePoint

  /** What the library throws. */
  datatype Thrown = NoRoom | BadOctet(octet: octet) | BadCodePoint(cp: u32) | BadWord(word: u16)

  datatype Result<T> = Ok(value: T) | Err(error: Thrown)

  // ---------------------------------------------------------------- one sequence

  /** The first thing wrong with the trail octets k.. of a sequence of n octets at i. */
  function Trails(s: seq<octet>, i: nat, end: nat, k: nat, n: nat): UtfError
    requires end <= |s| && k <= n
    decreases n - k
  {
    if k == n then Utf8Ok
    else if i + k >= end then NotEnoughRoom
    else if !IsTrail(s[i + k]) then IncompleteSequence
    else Trails(s, i, end, k + 1, n)
  }

  predicate TrailAt(s: seq<octet>, i: nat, end: nat, j: nat) {
    i + j < end <= |s| && IsTrail(s[i + j])
  }

  lemma {:induction false} TrailsOk(s: seq<octet>, i: nat, end: nat, k: nat, n: nat)
    requires end <= |s| && k <= n
    ensures Trails(s, i, end, k, n) == Utf8Ok <==> forall j: nat :: k <= j < n ==> TrailAt(s, i, end, j)
    decreases n - k
  {
    if k < n {
      TrailsOk(s, i, end, k + 1, n);
      assert Trails(s, i, end, k, n) == Utf8Ok <==> TrailAt(s, i, end, k) && Trails(s, i, end, k + 1, n) == Utf8Ok;
    }
  }

  /** What is found at position i < end: an error, or a code point and its length. */
  datatype Step = Good(cp: u32, n: nat) | Bad(error: UtfError)

  function Next(s: seq<octet>, i: nat, end: nat): (r: Step)
    requires i < end <= |s|
    ensures r.Good? ==> 1 <= r.n <= end - i
  {
    var n := SequenceLength(s[i]);
    if n == 0 then Bad(InvalidLead)
    else if Trails(s, i, end, 1, n) != Utf8Ok then Bad(Trails(s, i, end, 1, n))
    else
      TrailsOk(s, i, end, 1, n);
      assert n > 1 ==> TrailAt(s, i, end, n - 1);
      var cp := Join(s[i..i + n]);
      if !IsCodePointValid(cp) then Bad(InvalidCodePoint)
      else if IsOverlong(cp, n) then Bad(OverlongSequence)
      else Good(cp, n)
  }

  /** The octets of cp stand at position i. */
  predicate Stands(s: seq<octet>, i: nat, end: nat, cp: u32) {
    i + |Encode(cp)| <= end <= |s| && s[i..i + |Encode(cp)|] == Encode(cp)
  }

  /** Validity of one sequence is exactly encodability: a code point is found at i when,
      and only when, what `append` writes for some valid code point stands there, and it is
      that code point. */
  lemma NextExact(s: seq<octet>, i: nat, end: nat, cp: u32, n: nat)
    requires i < end <= |s|
    ensures Next(s, i, end) == Good(cp, n) <==> IsCodePointValid(cp) && n == |Encode(cp)| && Stands(s, i, end, cp)
  {
    if Next(s, i, end) == Good(cp, n) {
      NextSound(s, i, end, cp, n);
    }
    if IsCodePointValid(cp) && n == |Encode(cp)| && Stands(s, i, end, cp) {
      NextComplete(s, i, end, cp);
    }
  }

  lemma NextShaped(s: seq<octet>, i: nat, end: nat, cp: u32, n: nat)
    requires i < end <= |s| && Next(s, i, end) == Good(cp, n)
    ensures i + n <= end && Shaped(s[i..i + n]) && cp == Join(s[i..i + n]) && !IsOverlong(cp, n) && IsCodePointValid(cp)
  {
    TrailsOk(s, i, end, 1, n);
    ShapedHere(s, i, end, n);
  }

  lemma NextSound(s: seq<octet>, i: nat, end: nat, cp: u32, n: nat)
    requires i < end <= |s| && Next(s, i, end) == Good(cp, n)
    ensures IsCodePointValid(cp) && n == |Encode(cp)| && Stands(s, i, end, cp)
  {
    NextShaped(s, i, end, cp, n);
    EncodeJoin(s[i..i + n]);
  }

  lemma ShapedHere(s: seq<octet>, i: nat, end: nat, n: nat)
    requires 1 <= n <= 4 && i + n <= end <= |s|
    ensures Shaped(s[i..i + n]) <==> SequenceLength(s[i]) == n && forall j: nat :: 1 <= j < n ==> TrailAt(s, i, end, j)
  {
    var t := s[i..i + n];
    assert t[0] == s[i];
    assert n >= 2 ==> t[1] == s[i + 1] && (IsTrail(t[1]) <==> TrailAt(s, i, end, 1));
    assert n >= 3 ==> t[2] == s[i + 2] && (IsTrail(t[2]) <==> TrailAt(s, i, end, 2));
    assert n >= 4 ==> t[3] == s[i + 3] && (IsTrail(t[3]) <==> TrailAt(s, i, end, 3));
  }

  lemma NextComplete(s: seq<octet>, i: nat, end: nat, cp: u32)
    requires IsCodePointValid(cp) && Stands(s, i, end, cp)
    ensures i < end && Next(s, i, end) == Good(cp, |Encode(cp)|)
  {
    var n := |Encode(cp)|;
    JoinEncode(cp);
    ShapedHere(s, i, end, n);
    TrailsOk(s, i, end, 1, n);
  }

  // ---------------------------------------------------------------- reading one sequence

  /** What each reader of n octets promises: the first fault, or the code point with `it`
      on the last octet. */
  predicate Reads(s: seq<octet>, i: nat, end: nat, n: nat, err: UtfError, it: nat, cp: u32)
    requires i < end <= |s| && 1 <= n <= 4
  {
    && err == Trails(s, i, end, 1, n)
    && (err == Utf8Ok ==> it == i + n - 1 < end && cp == Join(s[i..i + n]))
  }

  lemma LastTrail(s: seq<octet>, i: nat, end: nat, n: nat)
    requires i < end <= |s| && n > 0
    ensures Trails(s, i, end, n - 1, n)
      == if i + n - 1 >= end then NotEnoughRoom else if IsTrail(s[i + n - 1]) then Utf8Ok else IncompleteSequence
  {
    assert Trails(s, i, end, n, n) == Utf8Ok;
  }

  lemma JoinHere(s: seq<octet>, i: nat)
    ensures i + 3 <= |s| ==> Join(s[i..i + 3]) == Join3(s[i], s[i + 1], s[i + 2])
    ensures i + 4 <= |s| ==> Join(s[i..i + 4]) == Join4(s[i], s[i + 1], s[i + 2], s[i + 3])
  {
  }

  method GetSequence1(s: seq<octet>, i: nat, end: nat) returns (err: UtfError, it: nat, cp: u32)
    requires i < end <= |s|
    ensures Reads(s, i, end, 1, err, it, cp)
  {
    return Utf8Ok, i, s[i] as u32;
  }

  method GetSequence2(s: seq<octet>, i: nat, end: nat) returns (err: UtfError, it: nat, cp: u32)
    requires i < end <= |s|
    ensures Reads(s, i, end, 2, err, it, cp)
  {
    err, it, cp := NotEnoughRoom, i, s[i] as u32;
    it := it + 1;
    if it != end {
      if IsTrail(s[it]) {
        cp := ((cp << 6) & 0x7ff) + ((s[it] as u32) & 0x3f);
        err := Utf8Ok;
      } else {
        err := IncompleteSequence;
      }
    }
  }

  method GetSequence3(s: seq<octet>, i: nat, end: nat) returns (err: UtfError, it: nat, cp: u32)
    requires i < end <= |s|
    ensures Reads(s, i, end, 3, err, it, cp)
  {
    err, it, cp := NotEnoughRoom, i, 0;
    var c := s[it] as u32;
    it := it + 1;
    if it != end {
      if IsTrail(s[it]) {
        c := ((c << 12) & 0xffff) + (((s[it] as u32) << 6) & 0xfff);
        it := it + 1;
        if it != end {
          if IsTrail(s[it]) {
            c := c + ((s[it] as u32) & 0x3f);
            JoinHere(s, i);
            cp, err := c, Utf8Ok;
          } else {
            err := IncompleteSequence;
          }
        }
      } else {
        err := IncompleteSequence;
      }
    }
    LastTrail(s, i, end, 3);
  }

  method GetSequence4(s: seq<octet>, i: nat, end: nat) returns (err: UtfError, it: nat, cp: u32)
    requires i < end <= |s|
    ensures Reads(s, i, end, 4, err, it, cp)
  {
    err, it, cp := NotEnoughRoom, i, 0;
    var c := s[it] as u32;
    it := it + 1;
    if it != end {
      if IsTrail(s[it]) {
        assert s[it] == s[i + 1];
        c := ((c << 18) & 0x1fffff) + (((s[it] as u32) << 12) & 0x3ffff);
        it := it + 1;
        if it != end {
          if IsTrail(s[it]) {
            assert s[it] == s[i + 2];
            c := c + (((s[it] as u32) << 6) & 0xfff);
            it := it + 1;
            if it != end {
              if IsTrail(s[it]) {
                assert s[it] == s[i + 3];
                c := c + ((s[it] as u32) & 0x3f);
                JoinHere(s, i);
                cp, err := c, Utf8Ok;
              } else {
                err := IncompleteSequence;
              }
            }
          } else {
            err := IncompleteSequence;
          }
        }
      } else {
        err := IncompleteSequence;
      }
    }
    LastTrail(s, i, end, 4);
    assert Trails(s, i, end, 2, 4) == if i + 2 >= end then NotEnoughRoom
      else if IsTrail(s[i + 2]) then Trails(s, i, end, 3, 4) else IncompleteSequence;
  }

  /** On success `it` is past the sequence, on failure back where it was. */
  method ValidateNext(s: seq<octet>, i: nat, end: nat) returns (err: UtfError, it: nat, cp: u32)
    requires i < end <= |s|
    ensures if err == Utf8Ok then i < it <= end else it == i && cp == 0
    ensures Next(s, i, end) == if err == Utf8Ok then Good(cp, it - i) else Bad(err)
  {
    var length := SequenceLength(s[i]);
    if length == 0 {
      return InvalidLead, i, 0;
    }
    var read: u32;
    if length == 1 {
      err, it, read := GetSequence1(s, i, end);
    } else if length == 2 {
      err, it, read := GetSequence2(s, i, end);
    } else if length == 3 {
      err, it, read := GetSequence3(s, i, end);
    } else {
      err, it, read := GetSequence4(s, i, end);
    }
    if err == Utf8Ok {
      if IsCodePointValid(read) {
        if !IsOverlong(read, length) {
          return Utf8Ok, it + 1, read;
        } else {
          err := OverlongSequence;
        }
      } else {
        err := InvalidCodePoint;
      }
    }
    it, cp := i, 0;
  }

  // ---------------------------------------------------------------- whole texts

  predicate AllValid(cps: seq<u32>) {
    forall i :: 0 <= i < |cps| ==> IsCodePointValid(cps[i])
  }

  /** What appending the code points one after the other writes. */
  function EncodeAll(cps: seq<u32>): seq<octet> {
    if cps == [] then [] else Encode(cps[0]) + EncodeAll(cps[1..])
  }

  /** The octets are the encoding of some valid code points. */
  ghost predicate IsText(t: seq<octet>) {
    exists cps :: AllValid(cps) && EncodeAll(cps) == t
  }

  /** The exception `next` turns a fault at i into. The code point reported for
      InvalidCodePoint is always 0, as `validate_next` stores nothing when it fails. */
  function Throw(s: seq<octet>, i: nat, error: UtfError): Thrown
    requires i < |s|
  {
    match error
    case NotEnoughRoom => NoRoom
    case InvalidCodePoint => BadCodePoint(0)
    case _ => BadOctet(s[i])
  }

  /** The code points between i and end, or the exception at the first fault. */
  function Decode(s: seq<octet>, i: nat, end: nat): Result<seq<u32>>
    requires i <= end <= |s|
    decreases end - i
  {
    if i == end then Ok([])
    else match Next(s, i, end)
      case Bad(e) => Err(Throw(s, i, e))
      case Good(cp, n) =>
        match Decode(s, i + n, end)
        case Ok(cps) => Ok([cp] + cps)
        case Err(e) => Err(e)
  }

  lemma DecodeStep(s: seq<octet>, i: nat, end: nat, cp: u32, n: nat, rest: seq<u32>)
    requires i < end <= |s| && Next(s, i, end) == Good(cp, n) && Decode(s, i + n, end) == Ok(rest)
    ensures Decode(s, i, end) == Ok([cp] + rest)
  {
  }

  lemma {:induction false} DecodeSound(s: seq<octet>, i: nat, end: nat)
    requires i <= end <= |s| && Decode(s, i, end).Ok?
    ensures AllValid(Decode(s, i, end).value) && EncodeAll(Decode(s, i, end).value) == s[i..end]
    decreases end - i
  {
    if i < end {
      var cp, n := Next(s, i, end).cp, Next(s, i, end).n;
      NextExact(s, i, end, cp, n);
      DecodeSound(s, i + n, end);
      assert s[i..end] == s[i..i + n] + s[i + n..end];
    }
  }

  /** The first code point of a text is what decoding finds first. */
  lemma FirstDecoded(s: seq<octet>, i: nat, end: nat, cps: seq<u32>)
    requires i <= end <= |s| && AllValid(cps) && cps != [] && EncodeAll(cps) == s[i..end]
    ensures i < end && Next(s, i, end) == Good(cps[0], |Encode(cps[0])|)
    ensures EncodeAll(cps[1..]) == s[i + |Encode(cps[0])|..end]
  {
    HeadTail(s, i, end, cps);
    NextComplete(s, i, end, cps[0]);
  }

  lemma {:induction false} DecodeComplete(s: seq<octet>, i: nat, end: nat, cps: seq<u32>)
    requires i <= end <= |s| && AllValid(cps) && EncodeAll(cps) == s[i..end]
    ensures Decode(s, i, end) == Ok(cps)
    decreases |cps|
  {
    if cps != [] {
      var n := |Encode(cps[0])|;
      FirstDecoded(s, i, end, cps);
      DecodeComplete(s, i + n, end, cps[1..]);
      DecodeStep(s, i, end, cps[0], n, cps[1..]);
      assert cps == [cps[0]] + cps[1..];
    }
  }

  /** Decoding succeeds exactly on texts, and with the code points they encode: the
      decomposition of a text is unique. */
  lemma DecodeExact(s: seq<octet>, i: nat, end: nat, cps: seq<u32>)
    requires i <= end <= |s|
    ensures Decode(s, i, end) == Ok(cps) <==> AllValid(cps) && EncodeAll(cps) == s[i..end]
  {
    if Decode(s, i, end) == Ok(cps) {
      DecodeSound(s, i, end);
    }
    if AllValid(cps) && EncodeAll(cps) == s[i..end] {
      DecodeComplete(s, i, end, cps);
    }
  }

  lemma HeadTail(s: seq<octet>, i: nat, end: nat, cps: seq<u32>)
    requires i <= end <= |s| && cps != [] && EncodeAll(cps) == s[i..end]
    ensures Stands(s, i, end, cps[0]) && EncodeAll(cps[1..]) == s[i + |Encode(cps[0])|..end]
  {
    Sliced(s, i, end, Encode(cps[0]), EncodeAll(cps[1..]));
  }

  lemma Sliced<T>(s: seq<T>, i: nat, end: nat, head: seq<T>, tail: seq<T>)
    requires i <= end <= |s| && s[i..end] == head + tail
    ensures i + |head| <= end && s[i..i + |head|] == head && s[i + |head|..end] == tail
  {
    var t := s[i..end];
    assert t[..|head|] == head && t[|head|..] == tail;
    assert s[i..i + |head|] == t[..|head|] && s[i + |head|..end] == t[|head|..];
  }

  lemma Assoc<T>(a: seq<T>, b: seq<T>, c: seq<T>)
    ensures a + b + c == a + (b + c) && a + [] == a && [] + a == a
  {
  }

  lemma {:induction false} EncodeAllSnoc(cps: seq<u32>, cp: u32)
    ensures EncodeAll(cps + [cp]) == EncodeAll(cps) + Encode(cp)
  {
    if cps == [] {
      assert cps + [cp] == [cp] && [cp][1..] == [];
      Assoc(Encode(cp), [], []);
    } else {
      EncodeAllSnoc(cps[1..], cp);
      assert (cps + [cp])[0] == cps[0] && (cps + [cp])[1..] == cps[1..] + [cp];
      Assoc(Encode(cps[0]), EncodeAll(cps[1..]), Encode(cp));
    }
  }

  lemma TextDecodes(s: seq<octet>, end: nat)
    requires end <= |s|
    ensures IsText(s[..end]) <==> Decode(s, 0, end).Ok?
  {
    assert s[0..end] == s[..end];
    if Decode(s, 0, end).Ok? {
      DecodeExact(s, 0, end, Decode(s, 0, end).value);
    }
    if cps :| AllValid(cps) && EncodeAll(cps) == s[..end] {
      DecodeExact(s, 0, end, cps);
    }
  }

  /** Decoding up to q goes through every place p decoding can stop at. */
  lemma {:induction false} Passes(s: seq<octet>, i: nat, p: nat, q: nat)
    requires i <= p < q <= |s| && Decode(s, i, p).Ok? && Decode(s, i, q).Ok?
    ensures Decode(s, i, p).value < Decode(s, i, q).value && Next(s, p, q).Good?
    decreases p - i
  {
    if i < p {
      var cp, n := Next(s, i, p).cp, Next(s, i, p).n;
      NextExact(s, i, p, cp, n);
      NextComplete(s, i, q, cp);
      Passes(s, i + n, p, q);
    }
  }

  /** The end of the longest prefix that is a text. */
  method FindInvalid(s: seq<octet>) returns (p: nat)
    ensures p <= |s| && IsText(s[..p])
    ensures forall q :: 0 <= q <= |s| && IsText(s[..q]) ==> q <= p
  {
    p := 0;
    while p != |s|
      invariant p <= |s| && Decode(s, 0, p).Ok?
      decreases |s| - p
    {
      var err, it, cp := ValidateNext(s, p, |s|);
      if err != Utf8Ok {
        Longest(s, p);
        return;
      }
      Extend(s, p, it, cp);
      p := it;
    }
    TextDecodes(s, p);
  }

  lemma EncodedOn(s: seq<octet>, p: nat, it: nat, cps: seq<u32>, cp: u32)
    requires p <= it <= |s| && EncodeAll(cps) == s[0..p] && Encode(cp) == s[p..it]
    ensures EncodeAll(cps + [cp]) == s[0..it]
  {
    EncodeAllSnoc(cps, cp);
    assert s[0..it] == s[0..p] + s[p..it];
  }

  lemma Extend(s: seq<octet>, p: nat, it: nat, cp: u32)
    requires p < it <= |s| && Decode(s, 0, p).Ok? && Next(s, p, |s|) == Good(cp, it - p)
    ensures Decode(s, 0, it) == Ok(Decode(s, 0, p).value + [cp])
  {
    var cps := Decode(s, 0, p).value;
    NextExact(s, p, |s|, cp, it - p);
    DecodeExact(s, 0, p, cps);
    EncodedOn(s, p, it, cps, cp);
    DecodeExact(s, 0, it, cps + [cp]);
  }

  lemma Longest(s: seq<octet>, p: nat)
    requires p < |s| && Decode(s, 0, p).Ok? && Next(s, p, |s|).Bad?
    ensures IsText(s[..p]) && forall q :: 0 <= q <= |s| && IsText(s[..q]) ==> q <= p
  {
    TextDecodes(s, p);
    forall q | p < q <= |s| ensures !IsText(s[..q]) {
      TextDecodes(s, q);
      if Decode(s, 0, q).Ok? {
        Passes(s, 0, p, q);
        var cp, n := Next(s, p, q).cp, Next(s, p, q).n;
        NextExact(s, p, q, cp, n);
        NextComplete(s, p, |s|, cp);
      }
    }
  }

  method IsValid(s: seq<octet>) returns (ok: bool)
    ensures ok <==> IsText(s)
  {
    var p := FindInvalid(s);
    assert s[..|s|] == s;
    ok := p == |s|;
  }
}
