/** The bits of UTF-8 and UTF-16 (sections 3 and 4 of RFC 3629, sections 2.1 and 2.2 of
    RFC 2781): how a code point is cut into octets or words and put together again. */
module Utf8Bits {

  type octet = bv8
  type u16 = bv16
  type u32 = bv32

  const CODE_POINT_MAX: u32 := 0x10ffff
  const LEAD_OFFSET: u32 := 0xd800 - (0x10000 >> 10)
  /** Below zero, so it wraps round. */
  const SURROGATE_OFFSET: u32 := 0x10000 - (0xd800 << 10) - 0xdc00

  predicate IsTrail(oc: octet) {
    oc >> 6 == 2
  }

  predicate IsLeadSurrogate(cp: u32) {
    0xd800 <= cp <= 0xdbff
  }

  predicate IsTrailSurrogate(cp: u32) {
    0xdc00 <= cp <= 0xdfff
  }

  predicate IsSurrogate(cp: u32) {
    0xd800 <= cp <= 0xdfff
  }

  predicate IsCodePointValid(cp: u32) {
    cp <= CODE_POINT_MAX && !IsSurrogate(cp) && cp != 0xfffe && cp != 0xffff
  }

  /** 0 for an octet that starts no sequence. */
  function SequenceLength(lead: octet): (n: nat)
    ensures n <= 4
  {
    if lead < 0x80 then 1 else if lead >> 5 == 6 then 2 else if lead >> 4 == 0xe then 3
    else if lead >> 3 == 0x1e then 4 else 0
  }

  predicate IsOverlong(cp: u32, length: nat) {
    if cp < 0x80 then length != 1 else if cp < 0x800 then length != 2 else if cp < 0x10000 then length != 3 else false
  }

  /** A cast to 8 bits. */
  function Low8(x: u32): octet {
    (x & 0xff) as octet
  }

  /** A cast to 16 bits. */
  function Low16(x: u32): u16 {
    (x & 0xffff) as u16
  }

  /** What `append` writes for cp. */
  function Encode(cp: u32): (s: seq<octet>)
    ensures 1 <= |s| <= 4
  {
    if cp < 0x80 then [Low8(cp)]
    else if cp < 0x800 then [Low8((cp >> 6) | 0xc0), Low8((cp & 0x3f) | 0x80)]
    else if cp < 0x10000 then [Low8((cp >> 12) | 0xe0), Low8(((cp >> 6) & 0x3f) | 0x80), Low8((cp & 0x3f) | 0x80)]
    else [Low8((cp >> 18) | 0xf0), Low8(((cp >> 12) & 0x3f) | 0x80), Low8(((cp >> 6) & 0x3f) | 0x80),
      Low8((cp & 0x3f) | 0x80)]
  }

  function Join2(a: octet, b: octet): u32 {
    (((a as u32) << 6) & 0x7ff) + ((b as u32) & 0x3f)
  }

  function Join3(a: octet, b: octet, c: octet): u32 {
    (((a as u32) << 12) & 0xffff) + (((b as u32) << 6) & 0xfff) + ((c as u32) & 0x3f)
  }

  function Join4(a: octet, b: octet, c: octet, d: octet): u32 {
    (((a as u32) << 18) & 0x1fffff) + (((b as u32) << 12) & 0x3ffff) + (((c as u32) << 6) & 0xfff) + ((d as u32) & 0x3f)
  }

  /** The code point a sequence of the length its lead octet announces stands for. */
  function Join(s: seq<octet>): u32
    requires 1 <= |s| <= 4
  {
    if |s| == 1 then s[0] as u32 else if |s| == 2 then Join2(s[0], s[1])
    else if |s| == 3 then Join3(s[0], s[1], s[2]) else Join4(s[0], s[1], s[2], s[3])
  }

  /** The octets have the shape of one sequence: a lead octet, then trail octets. */
  predicate Shaped(s: seq<octet>) {
    && 1 <= |s| <= 4 && SequenceLength(s[0]) == |s|
    && (|s| >= 2 ==> IsTrail(s[1])) && (|s| >= 3 ==> IsTrail(s[2])) && (|s| >= 4 ==> IsTrail(s[3]))
  }

  // ---------------------------------------------------------------- encoding then decoding

  lemma LastBits(cp: u32)
    ensures (Low8((cp & 0x3f) | 0x80) as u32) & 0x3f == cp & 0x3f && IsTrail(Low8((cp & 0x3f) | 0x80))
  {
  }

  lemma MiddleBits(cp: u32)
    ensures ((Low8(((cp >> 6) & 0x3f) | 0x80) as u32) << 6) & 0xfff == cp & 0xfc0
      && IsTrail(Low8(((cp >> 6) & 0x3f) | 0x80))
    ensures ((Low8(((cp >> 12) & 0x3f) | 0x80) as u32) << 12) & 0x3ffff == cp & 0x3f000
      && IsTrail(Low8(((cp >> 12) & 0x3f) | 0x80))
  {
  }

  lemma LeadBits2(cp: u32)
    requires cp < 0x800
    ensures ((Low8((cp >> 6) | 0xc0) as u32) << 6) & 0x7ff == cp & 0x7c0
  {
  }

  lemma LeadBits3(cp: u32)
    requires cp < 0x10000
    ensures ((Low8((cp >> 12) | 0xe0) as u32) << 12) & 0xffff == cp & 0xf000
  {
  }

  lemma LeadBits4(cp: u32)
    requires cp <= CODE_POINT_MAX
    ensures ((Low8((cp >> 18) | 0xf0) as u32) << 18) & 0x1fffff == cp & 0x1c0000
  {
  }

  lemma LeadLengths(cp: u32)
    ensures cp < 0x80 ==> SequenceLength(Low8(cp)) == 1 && Low8(cp) as u32 == cp
    ensures cp < 0x800 ==> SequenceLength(Low8((cp >> 6) | 0xc0)) == 2
    ensures cp < 0x10000 ==> SequenceLength(Low8((cp >> 12) | 0xe0)) == 3
    ensures cp <= CODE_POINT_MAX ==> SequenceLength(Low8((cp >> 18) | 0xf0)) == 4
  {
  }

  lemma Sum2(a: octet, b: octet, cp: u32)
    requires cp < 0x800 && ((a as u32) << 6) & 0x7ff == cp & 0x7c0 && (b as u32) & 0x3f == cp & 0x3f
    ensures Join2(a, b) == cp
  {
    assert (cp & 0x7c0) + (cp & 0x3f) == cp;
  }

  lemma Sum3(a: octet, b: octet, c: octet, cp: u32)
    requires cp < 0x10000 && ((a as u32) << 12) & 0xffff == cp & 0xf000
    requires ((b as u32) << 6) & 0xfff == cp & 0xfc0 && (c as u32) & 0x3f == cp & 0x3f
    ensures Join3(a, b, c) == cp
  {
    assert (cp & 0xf000) + (cp & 0xfc0) + (cp & 0x3f) == cp;
  }

  lemma Sum4(a: octet, b: octet, c: octet, d: octet, cp: u32)
    requires cp <= CODE_POINT_MAX && ((a as u32) << 18) & 0x1fffff == cp & 0x1c0000
    requires ((b as u32) << 12) & 0x3ffff == cp & 0x3f000
    requires ((c as u32) << 6) & 0xfff == cp & 0xfc0 && (d as u32) & 0x3f == cp & 0x3f
    ensures Join4(a, b, c, d) == cp
  {
    assert (cp & 0x1c0000) + (cp & 0x3f000) + (cp & 0xfc0) + (cp & 0x3f) == cp;
  }

  lemma ShapeEncode(cp: u32)
    requires cp <= CODE_POINT_MAX
    ensures Shaped(Encode(cp)) && !IsOverlong(cp, |Encode(cp)|)
  {
    LastBits(cp);
    MiddleBits(cp);
    LeadLengths(cp);
  }

  lemma JoinEncode2(cp: u32)
    requires 0x80 <= cp < 0x800
    ensures Join(Encode(cp)) == cp
  {
    LastBits(cp);
    LeadBits2(cp);
    Sum2(Encode(cp)[0], Encode(cp)[1], cp);
  }

  lemma JoinCut3(cp: u32)
    requires cp < 0x10000
    ensures Join3(Low8((cp >> 12) | 0xe0), Low8(((cp >> 6) & 0x3f) | 0x80), Low8((cp & 0x3f) | 0x80)) == cp
  {
    LastBits(cp);
    MiddleBits(cp);
    LeadBits3(cp);
    Sum3(Low8((cp >> 12) | 0xe0), Low8(((cp >> 6) & 0x3f) | 0x80), Low8((cp & 0x3f) | 0x80), cp);
  }

  lemma JoinEncode3(cp: u32)
    requires 0x800 <= cp < 0x10000
    ensures Join(Encode(cp)) == cp
  {
    JoinCut3(cp);
  }

  lemma JoinCut4(cp: u32)
    requires cp <= CODE_POINT_MAX
    ensures Join4(Low8((cp >> 18) | 0xf0), Low8(((cp >> 12) & 0x3f) | 0x80), Low8(((cp >> 6) & 0x3f) | 0x80),
              Low8((cp & 0x3f) | 0x80)) == cp
  {
    LastBits(cp);
    MiddleBits(cp);
    LeadBits4(cp);
    Sum4(Low8((cp >> 18) | 0xf0), Low8(((cp >> 12) & 0x3f) | 0x80), Low8(((cp >> 6) & 0x3f) | 0x80),
      Low8((cp & 0x3f) | 0x80), cp);
  }

  lemma JoinEncode4(cp: u32)
    requires 0x10000 <= cp <= CODE_POINT_MAX
    ensures Join(Encode(cp)) == cp
  {
    JoinCut4(cp);
  }

  /** Decoding what `append` wrote gives the code point back, in its shortest form. */
  lemma JoinEncode(cp: u32)
    requires cp <= CODE_POINT_MAX
    ensures Shaped(Encode(cp)) && Join(Encode(cp)) == cp && !IsOverlong(cp, |Encode(cp)|)
  {
    ShapeEncode(cp);
    if cp < 0x80 {
      LeadLengths(cp);
    } else if cp < 0x800 {
      JoinEncode2(cp);
    } else if cp < 0x10000 {
      JoinEncode3(cp);
    } else {
      JoinEncode4(cp);
    }
  }

  // ---------------------------------------------------------------- decoding then encoding

  lemma Cut1(a: octet)
    requires SequenceLength(a) == 1
    ensures a as u32 < 0x80 && Low8(a as u32) == a
  {
  }

  lemma Cut2(a: octet, b: octet)
    requires SequenceLength(a) == 2 && IsTrail(b)
    ensures var x := Join2(a, b); x < 0x800 && Low8((x >> 6) | 0xc0) == a && Low8((x & 0x3f) | 0x80) == b
  {
  }

  lemma Disjoint3(x: u32, y: u32, z: u32)
    requires x & 0xf000 == x && y & 0xfc0 == y && z & 0x3f == z
    ensures x + y + z == x | y | z
  {
  }

  lemma Or3(a: octet, b: octet, c: octet)
    ensures Join3(a, b, c) == (((a as u32) & 0xf) << 12) | (((b as u32) & 0x3f) << 6) | ((c as u32) & 0x3f)
  {
    var x, y, z := ((a as u32) & 0xf) << 12, ((b as u32) & 0x3f) << 6, (c as u32) & 0x3f;
    assert ((a as u32) << 12) & 0xffff == x;
    assert ((b as u32) << 6) & 0xfff == y;
    Disjoint3(x, y, z);
  }

  lemma Cut3(a: octet, b: octet, c: octet, x: u32)
    requires a >> 4 == 0xe && b >> 6 == 2 && c >> 6 == 2
    requires x == (((a as u32) & 0xf) << 12) | (((b as u32) & 0x3f) << 6) | ((c as u32) & 0x3f)
    ensures x < 0x10000 && Low8((x >> 12) | 0xe0) == a
    ensures Low8(((x >> 6) & 0x3f) | 0x80) == b && Low8((x & 0x3f) | 0x80) == c
  {
  }

  lemma Disjoint4(w: u32, x: u32, y: u32, z: u32)
    requires w & 0x1c0000 == w && x & 0x3f000 == x && y & 0xfc0 == y && z & 0x3f == z
    ensures w + x + y + z == w | x | y | z
  {
  }

  lemma Or4(a: octet, b: octet, c: octet, d: octet)
    ensures Join4(a, b, c, d)
      == (((a as u32) & 7) << 18) | (((b as u32) & 0x3f) << 12) | (((c as u32) & 0x3f) << 6) | ((d as u32) & 0x3f)
  {
    var w, x, y, z := ((a as u32) & 7) << 18, ((b as u32) & 0x3f) << 12, ((c as u32) & 0x3f) << 6, (d as u32) & 0x3f;
    assert ((a as u32) << 18) & 0x1fffff == w;
    assert ((b as u32) << 12) & 0x3ffff == x;
    assert ((c as u32) << 6) & 0xfff == y;
    Disjoint4(w, x, y, z);
  }

  lemma Cut4(a: octet, b: octet, c: octet, d: octet, x: u32)
    requires a >> 3 == 0x1e && b >> 6 == 2 && c >> 6 == 2 && d >> 6 == 2
    requires x == (((a as u32) & 7) << 18) | (((b as u32) & 0x3f) << 12) | (((c as u32) & 0x3f) << 6)
      | ((d as u32) & 0x3f)
    ensures Low8((x >> 18) | 0xf0) == a && Low8(((x >> 12) & 0x3f) | 0x80) == b
    ensures Low8(((x >> 6) & 0x3f) | 0x80) == c && Low8((x & 0x3f) | 0x80) == d
  {
  }

  lemma Leads(a: octet)
    ensures SequenceLength(a) == 3 ==> a >> 4 == 0xe
    ensures SequenceLength(a) == 4 ==> a >> 3 == 0x1e
  {
  }

  lemma Encode3(a: octet, b: octet, c: octet, x: u32)
    requires SequenceLength(a) == 3 && IsTrail(b) && IsTrail(c) && x >= 0x800
    requires x == (((a as u32) & 0xf) << 12) | (((b as u32) & 0x3f) << 6) | ((c as u32) & 0x3f)
    ensures Encode(x) == [a, b, c]
  {
    Leads(a);
    Cut3(a, b, c, x);
  }

  lemma Encode4(a: octet, b: octet, c: octet, d: octet, x: u32)
    requires SequenceLength(a) == 4 && IsTrail(b) && IsTrail(c) && IsTrail(d) && x >= 0x10000
    requires x == (((a as u32) & 7) << 18) | (((b as u32) & 0x3f) << 12) | (((c as u32) & 0x3f) << 6)
      | ((d as u32) & 0x3f)
    ensures Encode(x) == [a, b, c, d]
  {
    Leads(a);
    Cut4(a, b, c, d, x);
  }

  lemma Listed(s: seq<octet>)
    ensures |s| == 3 ==> s == [s[0], s[1], s[2]]
    ensures |s| == 4 ==> s == [s[0], s[1], s[2], s[3]]
  {
  }

  lemma EncodeJoin12(s: seq<octet>)
    requires Shaped(s) && |s| <= 2 && !IsOverlong(Join(s), |s|)
    ensures Encode(Join(s)) == s
  {
    if |s| == 1 {
      Cut1(s[0]);
    } else {
      Cut2(s[0], s[1]);
    }
  }

  lemma EncodeJoin3(s: seq<octet>)
    requires Shaped(s) && |s| == 3 && Join(s) >= 0x800
    ensures Encode(Join(s)) == s
  {
    Listed(s);
    Or3(s[0], s[1], s[2]);
    Encode3(s[0], s[1], s[2], Join(s));
  }

  lemma EncodeJoin4(s: seq<octet>)
    requires Shaped(s) && |s| == 4 && Join(s) >= 0x10000
    ensures Encode(Join(s)) == s
  {
    Listed(s);
    Or4(s[0], s[1], s[2], s[3]);
    Encode4(s[0], s[1], s[2], s[3], Join(s));
  }

  /** A well-shaped sequence that is not overlong is what `append` writes for the code
      point it stands for. */
  lemma EncodeJoin(s: seq<octet>)
    requires Shaped(s) && !IsOverlong(Join(s), |s|)
    ensures Encode(Join(s)) == s
  {
    if |s| <= 2 {
      EncodeJoin12(s);
    } else if |s| == 3 {
      EncodeJoin3(s);
    } else {
      EncodeJoin4(s);
    }
  }

  // ---------------------------------------------------------------- surrogate pairs

  /** What `utf8to16` writes for cp. */
  function Encode16(cp: u32): (u: seq<u16>)
    ensures 1 <= |u| <= 2
  {
    if cp > 0xffff then [Low16((cp >> 10) + LEAD_OFFSET), Low16((cp & 0x3ff) + 0xdc00)] else [Low16(cp)]
  }

  function Pair(lead: u32, trail: u32): u32 {
    (lead << 10) + trail + SURROGATE_OFFSET
  }

  lemma TenBits(cp: u32)
    ensures ((cp >> 10) << 10) + (cp & 0x3ff) == cp
    ensures ((cp >> 10) + LEAD_OFFSET) << 10 == ((cp >> 10) << 10) + (LEAD_OFFSET << 10)
  {
  }

  lemma LeadRange(cp: u32)
    requires 0x10000 <= cp <= CODE_POINT_MAX
    ensures var l := (cp >> 10) + LEAD_OFFSET; IsLeadSurrogate(l) && Low16(l) as u32 == l
  {
  }

  lemma TrailRange(cp: u32)
    ensures var t := (cp & 0x3ff) + 0xdc00; IsTrailSurrogate(t) && Low16(t) as u32 == t
  {
  }

  lemma PairSum(l: u32, t: u32, cp: u32)
    requires l == (cp >> 10) + LEAD_OFFSET && t == (cp & 0x3ff) + 0xdc00
    ensures Pair(l, t) == cp
  {
    TenBits(cp);
  }

  lemma LeadWord(cp: u32)
    requires 0x10000 <= cp <= CODE_POINT_MAX
    ensures |Encode16(cp)| == 2 && Encode16(cp)[0] as u32 == (cp >> 10) + LEAD_OFFSET
  {
    LeadRange(cp);
  }

  lemma TrailWord(cp: u32)
    requires 0x10000 <= cp
    ensures |Encode16(cp)| == 2 && Encode16(cp)[1] as u32 == (cp & 0x3ff) + 0xdc00
  {
    TrailRange(cp);
  }

  /** The wrapped offset undoes the split into surrogates. */
  lemma PairOfEncode(cp: u32)
    requires 0x10000 <= cp <= CODE_POINT_MAX
    ensures |Encode16(cp)| == 2
    ensures var l, t := Encode16(cp)[0] as u32, Encode16(cp)[1] as u32;
      IsLeadSurrogate(l) && IsTrailSurrogate(t) && Pair(l, t) == cp
  {
    LeadWord(cp);
    LeadRange(cp);
    TrailWord(cp);
    TrailRange(cp);
    PairSum(Encode16(cp)[0] as u32, Encode16(cp)[1] as u32, cp);
  }

  lemma EncodeOfPair(l: u16, t: u16)
    requires IsLeadSurrogate(l as u32) && IsTrailSurrogate(t as u32)
    ensures var cp := Pair(l as u32, t as u32); 0x10000 <= cp <= CODE_POINT_MAX && Encode16(cp) == [l, t]
  {
    PairRange(l, t);
    PairLead(l, t);
    PairTrail(l, t);
    WordsOf(Pair(l as u32, t as u32), l, t);
  }

  lemma PairRange(l: u16, t: u16)
    requires 0xd800 <= l <= 0xdbff && 0xdc00 <= t <= 0xdfff
    ensures 0x10000 <= Pair(l as u32, t as u32) <= 0x10ffff
  {
  }

  lemma PairLead(l: u16, t: u16)
    requires 0xd800 <= l <= 0xdbff && 0xdc00 <= t <= 0xdfff
    ensures Low16((Pair(l as u32, t as u32) >> 10) + LEAD_OFFSET) == l
  {
  }

  lemma PairTrail(l: u16, t: u16)
    requires 0xdc00 <= t <= 0xdfff
    ensures Low16((Pair(l as u32, t as u32) & 0x3ff) + 0xdc00) == t
  {
  }

  lemma WordsOf(cp: u32, l: u16, t: u16)
    requires cp > 0xffff && Low16((cp >> 10) + LEAD_OFFSET) == l && Low16((cp & 0x3ff) + 0xdc00) == t
    ensures Encode16(cp) == [l, t]
  {
  }

  lemma SingleWord(cp: u32)
    requires cp <= 0xffff
    ensures Low16(cp) as u32 == cp
  {
  }

  lemma SingleBack(u: u16)
    ensures u as u32 <= 0xffff && Low16(u as u32) == u
  {
  }

  /** A pair of surrogates reads as a valid code point that is written as that pair. */
  lemma PairRead(l: u16, t: u16)
    requires IsLeadSurrogate(l as u32) && IsTrailSurrogate(t as u32)
    ensures IsCodePointValid(Pair(l as u32, t as u32))
    ensures Encode16(Pair(l as u32, t as u32)) == [l, t]
  {
    EncodeOfPair(l, t);
  }

  lemma WordRead(w: u16)
    requires IsCodePointValid(w as u32)
    ensures Encode16(w as u32) == [w]
  {
    SingleBack(w);
  }

  /** What is written for a valid code point reads back as a pair or as a single word. */
  lemma PairWritten(cp: u32)
    requires IsCodePointValid(cp) && cp > 0xffff
    ensures |Encode16(cp)| == 2
    ensures IsLeadSurrogate(Encode16(cp)[0] as u32) && IsTrailSurrogate(Encode16(cp)[1] as u32)
    ensures Pair(Encode16(cp)[0] as u32, Encode16(cp)[1] as u32) == cp
  {
    PairOfEncode(cp);
  }

  lemma NoSurrogate(cp: u32)
    requires !IsSurrogate(cp)
    ensures !IsLeadSurrogate(cp) && !IsTrailSurrogate(cp)
  {
  }

  lemma WordWritten(cp: u32)
    requires cp <= 0xffff
    ensures |Encode16(cp)| == 1 && Encode16(cp)[0] as u32 == cp
  {
    SingleWord(cp);
  }
}
