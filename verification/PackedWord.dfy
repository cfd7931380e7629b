/** The 64-bit words of results/v2/raft_election_best.rs: the packed server state and the vote mask. Words
    are bit-vectors and the operations on them are the source's shifts, masks and ors. The numbers that
    the words hold are naturals; `Encode` and `Value` are the binary representation that connects the
    two. */
module PackedWord {
  import opened Options

  datatype Role = Follower | Candidate | Leader

  /** What a packed word stands for. */
  datatype Logical = Logical(term: nat, votedFor: Option<nat>, role: Role)

  const TERM_MASK: bv64 := 0xFF_FFFF_FFFF
  const VOTED_MASK: bv64 := 0x3F_FFFF
  const STATE_MASK: bv64 := 0x3

  /** Terms and server ids that the layout [term(40) | voted_for(22) | state(2)] can hold: terms
      below 2^40, ids below 2^22 - 1. */
  const TERM_LIMIT: nat := 0x100_0000_0000
  const ID_LIMIT: nat := 0x3F_FFFF

  predicate Fits(l: Logical) {
    l.term < TERM_LIMIT && (l.votedFor.Some? ==> l.votedFor.value < ID_LIMIT)
  }

  // ---------------------------------------------------------------- operations on words

  function And(x: bv64, y: bv64): bv64 {
    x & y
  }

  function Or(x: bv64, y: bv64): bv64 {
    x | y
  }

  function Double(x: bv64): bv64 {
    x << 1
  }

  function Half(x: bv64): bv64 {
    x >> 1
  }

  function TimesSixteen(x: bv64): bv64 {
    x << 4
  }

  function TimesByte(x: bv64): bv64 {
    x << 8
  }

  function Join(t: bv64, v: bv64, s: bv64): bv64 {
    (t << 24) | (v << 2) | s
  }

  function TermField(w: bv64): bv64 {
    (w >> 24) & TERM_MASK
  }

  function VotedField(w: bv64): bv64 {
    (w >> 2) & VOTED_MASK
  }

  function StateField(w: bv64): bv64 {
    w & STATE_MASK
  }

  // ---------------------------------------------------------------- binary representation

  function Pow2(k: nat): nat {
    if k == 0 then 1 else 2 * Pow2(k - 1)
  }

  function LowBit(n: nat): bv64 {
    if n % 2 == 1 then 1 else 0
  }

  /** The word that holds the number n (modulo 2^64). */
  function Encode(n: nat): bv64 {
    if n == 0 then 0 else Or(Double(Encode(n / 2)), LowBit(n))
  }

  /** The number held by the lowest k bits of a word. */
  function Value(x: bv64, k: nat): nat
    decreases k
  {
    if k == 0 then 0 else 2 * Value(Half(x), k - 1) + (if And(x, 1) == 1 then 1 else 0)
  }

  /** The word with every bit from position k upwards set. */
  function Above(k: nat): bv64 {
    if k == 0 then 0xFFFF_FFFF_FFFF_FFFF else Double(Above(k - 1))
  }

  const TOP: bv64 := 0x8000_0000_0000_0000

  lemma FourDoubles(x: bv64)
    ensures Double(Double(Double(Double(x)))) == TimesSixteen(x)
  {
  }

  lemma TwoSixteens(x: bv64)
    ensures TimesSixteen(TimesSixteen(x)) == TimesByte(x)
  {
  }

  lemma NextAbove(k: nat)
    ensures Above(k + 1) == Double(Above(k))
  {
  }

  lemma AboveByte(k: nat)
    ensures Above(k + 8) == TimesByte(Above(k))
  {
    NextAbove(k); NextAbove(k + 1); NextAbove(k + 2); NextAbove(k + 3);
    FourDoubles(Above(k));
    NextAbove(k + 4); NextAbove(k + 5); NextAbove(k + 6); NextAbove(k + 7);
    FourDoubles(Above(k + 4));
    TwoSixteens(Above(k));
  }

  lemma AboveWords()
    ensures TimesByte(0xFFFF_FFFF_FFFF_FFFF) == 0xFFFF_FFFF_FFFF_FF00
    ensures TimesByte(0xFFFF_FFFF_FFFF_FF00) == 0xFFFF_FFFF_FFFF_0000
    ensures TimesByte(0xFFFF_FFFF_FFFF_0000) == 0xFFFF_FFFF_FF00_0000
    ensures TimesByte(0xFFFF_FFFF_FF00_0000) == 0xFFFF_FFFF_0000_0000
    ensures TimesByte(0xFFFF_FFFF_0000_0000) == 0xFFFF_FF00_0000_0000
    ensures TimesByte(0xFFFF_FF00_0000_0000) == 0xFFFF_0000_0000_0000
    ensures TimesByte(0xFFFF_0000_0000_0000) == 0xFF00_0000_0000_0000
  {
  }

  lemma AboveStarts()
    ensures Above(16) == 0xFFFF_FFFF_FFFF_0000 && Above(40) == 0xFFFF_FF00_0000_0000
    ensures Above(56) == 0xFF00_0000_0000_0000
  {
    AboveByte(0); AboveByte(8); AboveByte(16); AboveByte(24); AboveByte(32); AboveByte(40); AboveByte(48);
    AboveWords();
  }

  lemma Above22()
    ensures Above(22) == 0xFFFF_FFFF_FFC0_0000
  {
    AboveStarts();
    NextAbove(16); NextAbove(17); NextAbove(18); NextAbove(19); NextAbove(20); NextAbove(21);
    SixDoubles();
  }

  lemma SixDoubles()
    ensures Double(Double(Double(Double(Double(Double(0xFFFF_FFFF_FFFF_0000)))))) == 0xFFFF_FFFF_FFC0_0000
  {
  }

  lemma Above63()
    ensures Above(63) == TOP
  {
    AboveStarts();
    NextAbove(56); NextAbove(57); NextAbove(58); NextAbove(59); NextAbove(60); NextAbove(61); NextAbove(62);
    SevenDoubles();
  }

  lemma SevenDoubles()
    ensures Double(Double(Double(Double(Double(Double(Double(0xFF00_0000_0000_0000))))))) == TOP
  {
  }

  lemma AllAnd(x: bv64)
    ensures And(0xFFFF_FFFF_FFFF_FFFF, x) == x && And(x, 0xFFFF_FFFF_FFFF_FFFF) == x
  {
  }

  lemma DoubleAnd(x: bv64, y: bv64)
    ensures And(Double(x), Double(y)) == Double(And(x, y))
  {
  }

  lemma {:induction false} AboveShrinks(k: nat)
    ensures And(Above(k), Above(k + 1)) == Above(k + 1)
  {
    if k == 0 {
      AllAnd(Above(1));
    } else {
      AboveShrinks(k - 1);
      DoubleAnd(Above(k - 1), Above(k));
    }
  }

  lemma SubMask(x: bv64, a: bv64, b: bv64)
    requires And(a, b) == b && And(x, a) == 0
    ensures And(x, b) == 0
  {
  }

  lemma {:induction false} AboveClears(x: bv64, k: nat, m: nat)
    requires And(x, Above(k)) == 0 && k <= m
    ensures And(x, Above(m)) == 0
    decreases m - k
  {
    if k < m {
      AboveShrinks(k);
      SubMask(x, Above(k), Above(k + 1));
      AboveClears(x, k + 1, m);
    }
  }

  lemma ZeroAnd(x: bv64)
    ensures And(0, x) == 0 && Double(0) == 0
  {
  }

  lemma LowestApart(b: bv64)
    ensures And(1, Double(b)) == 0 && And(Double(b), 1) == 0
  {
  }

  lemma OrZero(x: bv64)
    ensures Or(x, 0) == x
  {
  }

  lemma OrApart(mask: bv64, x: bv64, y: bv64)
    requires And(x, y) == 0
    ensures And(Or(mask, x), y) == And(mask, y)
  {
  }

  lemma ShiftInAnd(x: bv64, n: nat, y: bv64)
    requires And(x, y) == 0
    ensures And(Or(Double(x), LowBit(n)), Double(y)) == 0
  {
    DoubleAnd(x, y);
    ZeroAnd(0);
    OrZero(Double(x));
    LowestApart(y);
    OrApart(Double(x), 1, Double(y));
  }

  lemma HalfDouble(x: bv64)
    requires And(x, TOP) == 0
    ensures Half(Double(x)) == x
  {
  }

  lemma HalfOdd(x: bv64)
    ensures Half(Or(x, 1)) == Half(x)
  {
  }

  lemma OddBit(x: bv64)
    ensures And(Or(Double(x), 1), 1) == 1
  {
  }

  lemma HalfShifted(x: bv64, n: nat)
    ensures Half(Or(Double(x), LowBit(n))) == Half(Double(x))
  {
    HalfOdd(Double(x));
    OrZero(Double(x));
  }

  lemma BitShifted(x: bv64, n: nat)
    ensures And(Or(Double(x), LowBit(n)), 1) == LowBit(n)
  {
    OddBit(x);
    OrZero(Double(x));
    LowestApart(x);
  }

  lemma ShiftOut(x: bv64, n: nat)
    requires And(x, TOP) == 0
    ensures Half(Or(Double(x), LowBit(n))) == x && And(Or(Double(x), LowBit(n)), 1) == LowBit(n)
  {
    HalfDouble(x);
    HalfShifted(x, n);
    BitShifted(x, n);
  }

  lemma ShiftBack(x: bv64)
    ensures Or(Double(Half(x)), And(x, 1)) == x
    ensures And(x, 1) == 0 || And(x, 1) == 1
  {
  }

  /** A number below 2^k occupies the lowest k bits. */
  lemma {:induction false} EncodeBits(n: nat, k: nat)
    requires n < Pow2(k)
    ensures And(Encode(n), Above(k)) == 0
  {
    if n == 0 {
      ZeroAnd(Above(k));
    } else {
      EncodeBits(n / 2, k - 1);
      ShiftInAnd(Encode(n / 2), n, Above(k - 1));
    }
  }

  /** ... and the word that holds it gives it back. */
  lemma {:induction false} EncodeValue(n: nat, k: nat)
    requires n < Pow2(k) && k <= 64
    ensures Value(Encode(n), k) == n
  {
    if n == 0 {
      ZeroValue(k);
    } else {
      EncodeBits(n / 2, k - 1);
      AboveClears(Encode(n / 2), k - 1, 63);
      Above63();
      ShiftOut(Encode(n / 2), n);
      EncodeValue(n / 2, k - 1);
    }
  }

  lemma HalfZero()
    ensures Half(0) == 0 && And(0, 1) == 0
  {
  }

  lemma {:induction false} ZeroValue(k: nat)
    ensures Value(0, k) == 0
  {
    if k > 0 {
      HalfZero();
      ZeroValue(k - 1);
    }
  }

  lemma {:induction false} ValueBelow(x: bv64, k: nat)
    ensures Value(x, k) < Pow2(k)
  {
    if k > 0 {
      ValueBelow(Half(x), k - 1);
    }
  }

  lemma {:induction false} Powers()
    ensures Pow2(22) == 0x40_0000 && Pow2(40) == TERM_LIMIT
  {
    assert Pow2(4) == 16;
    assert Pow2(8) == 0x100;
    assert Pow2(12) == 0x1000;
    assert Pow2(16) == 0x1_0000;
    assert Pow2(20) == 0x10_0000;
    assert Pow2(22) == 0x40_0000;
    assert Pow2(26) == 0x400_0000;
    assert Pow2(30) == 0x4000_0000;
    assert Pow2(34) == 0x4_0000_0000;
    assert Pow2(38) == 0x40_0000_0000;
  }

  // ---------------------------------------------------------------- packing

  function RoleBits(r: Role): bv64 {
    match r
    case Follower => 0
    case Candidate => 1
    case Leader => 2
  }

  function BitsRole(v: bv64): Role {
    if v == 1 then Candidate else if v == 2 then Leader else Follower
  }

  function VotedNumber(votedFor: Option<nat>): nat {
    match votedFor
    case None => 0
    case Some(id) => id + 1
  }

  function Pack(l: Logical): bv64 {
    Join(And(Encode(l.term), TERM_MASK), And(Encode(VotedNumber(l.votedFor)), VOTED_MASK),
         And(RoleBits(l.role), STATE_MASK))
  }

  function UnpackTerm(w: bv64): nat {
    Value(TermField(w), 40)
  }

  function UnpackVotedFor(w: bv64): Option<nat> {
    var v := Value(VotedField(w), 22);
    if v == 0 then None else Some(v - 1)
  }

  function UnpackRole(w: bv64): Role {
    BitsRole(StateField(w))
  }

  function Unpack(w: bv64): Logical {
    Logical(UnpackTerm(w), UnpackVotedFor(w), UnpackRole(w))
  }

  lemma FieldsApart(t: bv64, v: bv64, s: bv64)
    requires And(t, TERM_MASK) == t && And(v, VOTED_MASK) == v && And(s, STATE_MASK) == s
    ensures TermField(Join(t, v, s)) == t
    ensures VotedField(Join(t, v, s)) == v
    ensures StateField(Join(t, v, s)) == s
  {
  }

  lemma FieldsTogether(w: bv64)
    ensures Join(TermField(w), VotedField(w), StateField(w)) == w
  {
  }

  lemma TermFieldBelow(w: bv64)
    ensures And(TermField(w), 0xFFFF_FF00_0000_0000) == 0
  {
  }

  lemma TermFieldMasked(w: bv64)
    ensures And(TermField(w), TERM_MASK) == TermField(w)
  {
  }

  lemma VotedFieldBelow(w: bv64)
    ensures And(VotedField(w), 0xFFFF_FFFF_FFC0_0000) == 0
  {
  }

  lemma VotedFieldMasked(w: bv64)
    ensures And(VotedField(w), VOTED_MASK) == VotedField(w)
  {
  }

  lemma MaskTerm(x: bv64)
    requires And(x, 0xFFFF_FF00_0000_0000) == 0
    ensures And(x, TERM_MASK) == x
  {
  }

  lemma MaskVoted(x: bv64)
    requires And(x, 0xFFFF_FFFF_FFC0_0000) == 0
    ensures And(x, VOTED_MASK) == x
  {
  }

  lemma MaskRole(r: Role)
    ensures And(RoleBits(r), STATE_MASK) == RoleBits(r)
    ensures BitsRole(RoleBits(r)) == r
  {
  }

  /** A term that fits is not changed by its mask. */
  lemma TermFits(term: nat)
    requires term < TERM_LIMIT
    ensures And(Encode(term), TERM_MASK) == Encode(term)
    ensures Value(Encode(term), 40) == term
  {
    Powers();
    EncodeBits(term, 40);
    AboveStarts();
    MaskTerm(Encode(term));
    EncodeValue(term, 40);
  }

  lemma VotedFits(v: nat)
    requires v <= ID_LIMIT
    ensures And(Encode(v), VOTED_MASK) == Encode(v)
    ensures Value(Encode(v), 22) == v
  {
    Powers();
    EncodeBits(v, 22);
    Above22();
    MaskVoted(Encode(v));
    EncodeValue(v, 22);
  }

  /** Packing round trip: for terms below 2^40 and ids below 2^22 - 1 the three unpack functions
      recover exactly what was packed. */
  lemma PackUnpack(l: Logical)
    requires Fits(l)
    ensures Unpack(Pack(l)) == l
  {
    TermFits(l.term);
    VotedFits(VotedNumber(l.votedFor));
    MaskRole(l.role);
    FieldsApart(Encode(l.term), Encode(VotedNumber(l.votedFor)), RoleBits(l.role));
  }

  /** What any word unpacks to fits again. */
  lemma UnpackFits(w: bv64)
    ensures Fits(Unpack(w))
  {
    Powers();
    ValueBelow(TermField(w), 40);
    ValueBelow(VotedField(w), 22);
  }

  /** So the shortcut taken when the packed word does not change loses nothing: equal words mean
      equal logical states, and conversely. */
  lemma SameWordSameState(a: Logical, b: Logical)
    requires Fits(a) && Fits(b)
    ensures Pack(a) == Pack(b) <==> a == b
  {
    PackUnpack(a);
    PackUnpack(b);
  }

  // ---------------------------------------------------------------- re-packing

  lemma HalfClears(x: bv64, y: bv64)
    requires And(x, Double(y)) == 0
    ensures And(Half(x), And(y, 0x7FFF_FFFF_FFFF_FFFF)) == 0
  {
  }

  lemma HalfTop(x: bv64)
    ensures And(Half(x), TOP) == 0
  {
  }

  lemma AndSplit(x: bv64, y: bv64)
    requires And(x, And(y, 0x7FFF_FFFF_FFFF_FFFF)) == 0 && And(x, TOP) == 0
    ensures And(x, y) == 0
  {
  }

  lemma NoBits(x: bv64)
    requires And(x, 0xFFFF_FFFF_FFFF_FFFF) == 0
    ensures x == 0
  {
  }

  lemma HalfBelow(x: bv64, y: bv64)
    requires And(x, Double(y)) == 0
    ensures And(Half(x), y) == 0
  {
    HalfClears(x, y);
    HalfTop(x);
    AndSplit(Half(x), y);
  }

  lemma EncodeDouble(m: nat, bit: nat)
    requires bit < 2
    ensures Encode(2 * m + bit) == Or(Double(Encode(m)), LowBit(bit))
  {
    if m == 0 && bit == 0 {
      ZeroAnd(0);
      OrZero(0);
    } else {
      assert (2 * m + bit) / 2 == m && (2 * m + bit) % 2 == bit;
    }
  }

  lemma EncodeShift(m: nat, x: bv64)
    requires Encode(m) == Half(x)
    ensures Encode(2 * m + if And(x, 1) == 1 then 1 else 0) == x
  {
    ShiftBack(x);
    EncodeDouble(m, if And(x, 1) == 1 then 1 else 0);
  }

  /** A word whose bits lie below position k is the word that holds its own value. */
  lemma {:induction false} ValueEncode(x: bv64, k: nat)
    requires And(x, Above(k)) == 0
    ensures Encode(Value(x, k)) == x
  {
    if k == 0 {
      NoBits(x);
    } else {
      HalfBelow(x, Above(k - 1));
      ValueEncode(Half(x), k - 1);
      EncodeShift(Value(Half(x), k - 1), x);
    }
  }

  lemma StateCases(w: bv64)
    ensures StateField(w) == 0 || StateField(w) == 1 || StateField(w) == 2 || StateField(w) == 3
  {
  }

  lemma RepackTerm(w: bv64)
    ensures And(Encode(UnpackTerm(w)), TERM_MASK) == TermField(w)
  {
    AboveStarts();
    TermFieldBelow(w);
    ValueEncode(TermField(w), 40);
    TermFieldMasked(w);
  }

  lemma VotedNumberBack(w: bv64)
    ensures VotedNumber(UnpackVotedFor(w)) == Value(VotedField(w), 22)
  {
  }

  lemma VotedFieldEncoded(w: bv64)
    ensures Encode(Value(VotedField(w), 22)) == VotedField(w)
  {
    Above22();
    VotedFieldBelow(w);
    ValueEncode(VotedField(w), 22);
  }

  lemma RepackVoted(w: bv64)
    ensures And(Encode(VotedNumber(UnpackVotedFor(w))), VOTED_MASK) == VotedField(w)
  {
    VotedNumberBack(w);
    VotedFieldEncoded(w);
    VotedFieldMasked(w);
  }

  lemma RepackRole(w: bv64)
    ensures RoleBits(UnpackRole(w)) == StateField(w) <==> StateField(w) != 3
  {
    StateCases(w);
  }

  lemma Repack(w: bv64)
    ensures Pack(Unpack(w)) == Join(TermField(w), VotedField(w), RoleBits(UnpackRole(w)))
  {
    RepackTerm(w);
    RepackVoted(w);
    MaskRole(UnpackRole(w));
  }

  lemma RepackState(w: bv64)
    ensures StateField(Join(TermField(w), VotedField(w), RoleBits(UnpackRole(w)))) == RoleBits(UnpackRole(w))
  {
    TermFieldMasked(w);
    VotedFieldMasked(w);
    MaskRole(UnpackRole(w));
    FieldsApart(TermField(w), VotedField(w), RoleBits(UnpackRole(w)));
  }

  /** Re-packing gives back every word whose state bits are not the unused pattern 3, and no other. */
  lemma UnpackPack(w: bv64)
    ensures Pack(Unpack(w)) == w <==> StateField(w) != 3
  {
    Repack(w);
    FieldsTogether(w);
    RepackRole(w);
    RepackState(w);
  }

  // ---------------------------------------------------------------- vote masks

  /** The word with bit i set. */
  function Bit(i: nat): bv64 {
    if i == 0 then 1 else Double(Bit(i - 1))
  }

  predicate Test(mask: bv64, i: nat) {
    And(mask, Bit(i)) != 0
  }

  /** The number of ones among the lowest n bits; `count_ones` is `CountBits(mask, 64)`. */
  function CountBits(mask: bv64, n: nat): nat {
    if n == 0 then 0 else CountBits(mask, n - 1) + if Test(mask, n - 1) then 1 else 0
  }

  function CountOnes(mask: bv64): nat {
    CountBits(mask, 64)
  }

  lemma NextBit(i: nat)
    ensures Bit(i + 1) == Double(Bit(i))
  {
  }

  lemma FourOn(i: nat)
    ensures Bit(i + 4) == TimesSixteen(Bit(i))
  {
    NextBit(i); NextBit(i + 1); NextBit(i + 2); NextBit(i + 3);
    FourDoubles(Bit(i));
  }

  lemma EightOn(i: nat)
    ensures Bit(i + 8) == TimesByte(Bit(i))
  {
    FourOn(i);
    FourOn(i + 4);
    TwoSixteens(Bit(i));
  }

  lemma Bytes()
    ensures TimesByte(0x1) == 0x100 && TimesByte(0x100) == 0x1_0000 && TimesByte(0x1_0000) == 0x100_0000
    ensures TimesByte(0x100_0000) == 0x1_0000_0000 && TimesByte(0x1_0000_0000) == 0x100_0000_0000
    ensures TimesByte(0x100_0000_0000) == 0x1_0000_0000_0000
    ensures TimesByte(0x1_0000_0000_0000) == 0x100_0000_0000_0000
  {
  }

  lemma ByteStarts()
    ensures Bit(0) == 0x1 && Bit(8) == 0x100 && Bit(16) == 0x1_0000 && Bit(24) == 0x100_0000
    ensures Bit(32) == 0x1_0000_0000 && Bit(40) == 0x100_0000_0000
    ensures Bit(48) == 0x1_0000_0000_0000 && Bit(56) == 0x100_0000_0000_0000
  {
    EightOn(0); EightOn(8); EightOn(16); EightOn(24); EightOn(32); EightOn(40); EightOn(48);
    Bytes();
  }

  /** Seven doublings of one of the lowest 57 powers of two do not overflow. */
  lemma DoublesNonzero(x: bv64)
    requires 1 <= x <= 0x100_0000_0000_0000
    ensures var a := Double(x); var b := Double(a); var c := Double(b); var d := Double(c);
            var e := Double(d); var f := Double(e); var g := Double(f);
            x != 0 && a != 0 && b != 0 && c != 0 && d != 0 && e != 0 && f != 0 && g != 0
  {
  }

  /** So no bit of the byte that starts at `start` is lost. */
  lemma WithinByte(start: nat, r: nat)
    requires r < 8 && 1 <= Bit(start) <= 0x100_0000_0000_0000
    ensures Bit(start + r) != 0
  {
    NextBit(start); NextBit(start + 1); NextBit(start + 2); NextBit(start + 3);
    NextBit(start + 4); NextBit(start + 5); NextBit(start + 6);
    DoublesNonzero(Bit(start));
    assert r == 0 || r == 1 || r == 2 || r == 3 || r == 4 || r == 5 || r == 6 || r == 7;
  }

  lemma BitNonzero(i: nat)
    requires i < 64
    ensures Bit(i) != 0
  {
    ByteStarts();
    var start := i / 8 * 8;
    assert start == 0 || start == 8 || start == 16 || start == 24
        || start == 32 || start == 40 || start == 48 || start == 56;
    WithinByte(start, i - start);
  }

  lemma ShiftedApart(a: bv64, b: bv64)
    requires And(a, b) == 0
    ensures And(Double(a), Double(b)) == 0
  {
  }

  lemma {:induction false} BitsApart(i: nat, j: nat)
    requires i != j
    ensures And(Bit(i), Bit(j)) == 0
  {
    if i == 0 {
      LowestApart(Bit(j - 1));
    } else if j == 0 {
      LowestApart(Bit(i - 1));
    } else {
      BitsApart(i - 1, j - 1);
      ShiftedApart(Bit(i - 1), Bit(j - 1));
    }
  }

  lemma OrSelf(mask: bv64, x: bv64)
    ensures And(Or(mask, x), x) == x && And(x, x) == x
  {
  }

  /** Recording one more vote sets exactly that voter's bit. */
  lemma SetBit(mask: bv64, b: nat, i: nat)
    requires b < 64 && i < 64
    ensures Test(Or(mask, Bit(b)), i) <==> Test(mask, i) || i == b
  {
    if b != i {
      BitsApart(b, i);
      OrApart(mask, Bit(b), Bit(i));
    } else {
      BitNonzero(i);
      OrSelf(mask, Bit(b));
    }
  }

  lemma OneBit(b: nat, i: nat)
    requires b < 64 && i < 64
    ensures Test(Bit(b), i) <==> i == b
  {
    if b != i {
      BitsApart(b, i);
    } else {
      BitNonzero(i);
      OrSelf(0, Bit(b));
    }
  }

  lemma EmptyMask(i: nat)
    ensures !Test(0, i)
  {
    ZeroAnd(Bit(i));
  }

  function SetBits(mask: bv64, n: nat): set<nat> {
    set i | 0 <= i < n && Test(mask, i)
  }

  lemma {:induction false} CountIsCardinality(mask: bv64, n: nat)
    ensures CountBits(mask, n) == |SetBits(mask, n)|
  {
    if n > 0 {
      CountIsCardinality(mask, n - 1);
      assert SetBits(mask, n) == SetBits(mask, n - 1) + if Test(mask, n - 1) then {n - 1} else {};
    }
  }
}
