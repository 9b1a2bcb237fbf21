/**
 * Hexside bitfields: a set of hexside bit numbers packed into a growable
 * sequence of 32-bit words.  Bit b lives in word b / 32 under the mask
 * 1 << (b & 31); for the non-negative bit numbers the router uses, b & 31 is
 * b % 32.  The router builds bitfields with `set_bit`, combines them with
 * `js_route_bitfield_merge` and tests them with `new_js_route_bitfield_conflicts`.
 * JavaScript's `|` and `&` work on 32-bit integers, so a word is a bv32.
 */
module Bitfields {

  type Word = bv32

  /** A bit position inside one word (0 to 31). */
  type Lane = bv5

  function Max(x: int, y: int): int { if x < y then y else x }

  function Min(x: int, y: int): int { if x < y then x else y }

  /** The mask of one lane: 1 << lane. */
  function Mask(j: Lane): Word
  {
    (1 as Word) << j
  }

  /** The lane of bit number b: b & 31, which is b % 32 for b >= 0. */
  function LaneOf(b: nat): Lane
  {
    (b % 32) as Lane
  }

  /** Word i of a bitfield, a missing word reading as 0 (JavaScript `a[i] ?? 0`). */
  function WordAt(a: seq<Word>, i: nat): Word
  {
    if i < |a| then a[i] else 0
  }

  /** Is lane j of word w set? */
  predicate WordBit(w: Word, j: Lane)
  {
    w & Mask(j) != 0
  }

  /** A bit position: a word index and a lane within that word. */
  datatype Pos = Pos(word: nat, lane: Lane)

  /** The position of bit number b: word b / 32, lane b & 31. */
  function PosOf(b: nat): Pos
  {
    Pos(b / 32, LaneOf(b))
  }

  /** Is the bit at position p set in the bitfield? */
  predicate HasPos(a: seq<Word>, p: Pos)
  {
    p.word < |a| && WordBit(a[p.word], p.lane)
  }

  /** Is bit number b set in the bitfield? */
  predicate HasBit(a: seq<Word>, b: nat)
  {
    HasPos(a, PosOf(b))
  }

  /** The positions a bitfield stands for. */
  ghost function Bits(a: seq<Word>): iset<Pos>
  {
    iset p: Pos | HasPos(a, p)
  }

  /** The lane of b, read back as a number, is b % 32. */
  lemma LaneValue(b: nat)
    ensures LaneOf(b) as nat == b % 32
  {
  }

  /** Distinct bit numbers have distinct positions. */
  lemma PosOfInjective(b: nat, c: nat)
    requires PosOf(b) == PosOf(c)
    ensures b == c
  {
    LaneValue(b);
    LaneValue(c);
  }

  /** Words that are all zero stand for the empty set (the router starts from [0] or []). */
  lemma ZeroWordsAreEmpty(a: seq<Word>)
    requires forall i :: 0 <= i < |a| ==> a[i] == 0
    ensures Bits(a) == iset{}
  {
    forall p: Pos
      ensures !HasPos(a, p)
    {
      if p.word < |a| {
        assert a[p.word] == 0;
      }
    }
  }

  /** A nonzero word has some lane set: the lowest one, found by halving. */
  lemma NonzeroWordHasBit(w: Word) returns (k: Lane)
    requires w != 0
    ensures WordBit(w, k)
  {
    var x := w;
    k := 0;
    if x & 0xFFFF == 0 { x, k := x >> 16, k + 16; }
    if x & 0xFF == 0 { x, k := x >> 8, k + 8; }
    if x & 0xF == 0 { x, k := x >> 4, k + 4; }
    if x & 0x3 == 0 { x, k := x >> 2, k + 2; }
    if x & 0x1 == 0 { x, k := x >> 1, k + 1; }
    assert x == w >> k && x & 1 != 0;
  }

  /** A mask has exactly its own lane set. */
  lemma MaskBit(j: Lane, k: Lane)
    ensures WordBit(Mask(j), k) <==> j == k
  {
  }

  lemma OrMaskBit(x: Word, j: Lane, k: Lane)
    ensures WordBit(x | Mask(j), k) <==> WordBit(x, k) || j == k
  {
    OrBit(x, Mask(j), k);
    MaskBit(j, k);
  }

  lemma OrBit(x: Word, y: Word, k: Lane)
    ensures WordBit(x | y, k) <==> WordBit(x, k) || WordBit(y, k)
  {
    assert (x | y) & Mask(k) == (x & Mask(k)) | (y & Mask(k));
  }

  lemma AndBit(x: Word, y: Word, k: Lane)
    ensures WordBit(x & y, k) <==> WordBit(x, k) && WordBit(y, k)
  {
  }

  // ---------------------------------------------------------------------
  // set_bit (auto_router.rb:342-351)
  // ---------------------------------------------------------------------

  /**
   * `set_bit(bitfield, bit)`: grow the bitfield with zero words until word
   * bit / 32 exists, then OR the bit's mask into that word.
   */
  method SetBit(bitfield: seq<Word>, bit: nat) returns (r: seq<Word>)
    ensures |r| == Max(|bitfield|, bit / 32 + 1)
    ensures forall i :: 0 <= i < |bitfield| && i != bit / 32 ==> r[i] == bitfield[i]
    ensures forall i :: |bitfield| <= i < |r| && i != bit / 32 ==> r[i] == 0
    ensures HasBit(r, bit)
    ensures Bits(r) == Bits(bitfield) + iset{PosOf(bit)}
  {
    var entry := bit / 32;
    var lane := LaneOf(bit);
    var mask := Mask(lane);
    var addCount := entry + 1 - |bitfield|;
    r := bitfield;
    while addCount > 0
      invariant |r| + addCount == entry + 1
      invariant addCount < 0 ==> |r| == |bitfield|
      invariant |r| >= |bitfield|
      invariant r[..|bitfield|] == bitfield
      invariant forall i :: |bitfield| <= i < |r| ==> r[i] == 0
    {
      r := r + [0];
      addCount := addCount - 1;
    }
    ZeroPaddingKeepsBits(bitfield, r);
    OrIntoWord(r, entry, lane);
    r := r[entry := r[entry] | mask];
    assert Pos(entry, lane) in Bits(r);
  }

  /** Appending zero words adds no bit. */
  lemma ZeroPaddingKeepsBits(a: seq<Word>, r: seq<Word>)
    requires |a| <= |r| && r[..|a|] == a
    requires forall i :: |a| <= i < |r| ==> r[i] == 0
    ensures Bits(r) == Bits(a)
  {
    forall p: Pos
      ensures HasPos(r, p) <==> HasPos(a, p)
    {
      if p.word < |a| {
        assert r[p.word] == a[p.word];
      } else if p.word < |r| {
        assert r[p.word] == 0;
      }
    }
  }

  /** OR-ing the mask of a lane into a word adds exactly that position. */
  lemma OrIntoWord(a: seq<Word>, entry: nat, lane: Lane)
    requires entry < |a|
    ensures Bits(a[entry := a[entry] | Mask(lane)]) == Bits(a) + iset{Pos(entry, lane)}
  {
    forall p: Pos
      ensures HasPos(a[entry := a[entry] | Mask(lane)], p) <==> HasPos(a, p) || p == Pos(entry, lane)
    {
      OrIntoWordAt(a, entry, lane, p);
    }
  }

  lemma OrIntoWordAt(a: seq<Word>, entry: nat, lane: Lane, p: Pos)
    requires entry < |a|
    ensures HasPos(a[entry := a[entry] | Mask(lane)], p) <==> HasPos(a, p) || p == Pos(entry, lane)
  {
    if p.word == entry {
      OrMaskBit(a[entry], lane, p.lane);
    }
  }

  // ---------------------------------------------------------------------
  // js_route_bitfield_merge (auto_router.rb:698-705)
  // ---------------------------------------------------------------------

  /** The merged bitfield: word-wise OR up to the longer length, missing words read as 0. */
  function Merge(a: seq<Word>, b: seq<Word>): (r: seq<Word>)
    ensures |r| == Max(|a|, |b|)
  {
    seq(Max(|a|, |b|), i requires 0 <= i < Max(|a|, |b|) => WordAt(a, i) | WordAt(b, i))
  }

  /** `js_route_bitfield_merge(a, b)`, with its index loop. */
  method MergeBitfields(a: seq<Word>, b: seq<Word>) returns (result: seq<Word>)
    ensures result == Merge(a, b)
    ensures Bits(result) == Bits(a) + Bits(b)
  {
    var max := Max(|a|, |b|);
    result := [];
    var i := 0;
    while i < max
      invariant i <= max
      invariant |result| == i
      invariant forall j :: 0 <= j < i ==> result[j] == WordAt(a, j) | WordAt(b, j)
    {
      result := result + [WordAt(a, i) | WordAt(b, i)];
      i := i + 1;
    }
    MergeIsUnion(a, b);
  }

  /** As sets of bits, merging is union. */
  lemma MergeIsUnion(a: seq<Word>, b: seq<Word>)
    ensures Bits(Merge(a, b)) == Bits(a) + Bits(b)
  {
    forall p: Pos
      ensures HasPos(Merge(a, b), p) <==> HasPos(a, p) || HasPos(b, p)
    {
      MergeHasPos(a, b, p);
    }
  }

  lemma MergeHasPos(a: seq<Word>, b: seq<Word>, p: Pos)
    ensures HasPos(Merge(a, b), p) <==> HasPos(a, p) || HasPos(b, p)
  {
    if p.word < Max(|a|, |b|) {
      OrBit(WordAt(a, p.word), WordAt(b, p.word), p.lane);
    }
  }

  /** Merging is commutative. */
  lemma MergeCommutes(a: seq<Word>, b: seq<Word>)
    ensures Merge(a, b) == Merge(b, a)
  {
    assert forall i :: 0 <= i < Max(|a|, |b|) ==> Merge(a, b)[i] == Merge(b, a)[i];
  }

  // ---------------------------------------------------------------------
  // new_js_route_bitfield_conflicts (auto_router.rb:689-696)
  // ---------------------------------------------------------------------

  /** Two bitfields conflict when some word of their common prefix has a nonzero AND. */
  predicate Conflicts(a: seq<Word>, b: seq<Word>)
  {
    exists i :: 0 <= i < Min(|a|, |b|) && a[i] & b[i] != 0
  }

  /** `new_js_route_bitfield_conflicts(a, b)`: scan the common prefix from its last word down. */
  method BitfieldsConflict(a: seq<Word>, b: seq<Word>) returns (conflict: bool)
    ensures conflict == Conflicts(a, b)
    ensures conflict <==> Bits(a) * Bits(b) != iset{}
  {
    var index := Min(|a|, |b|) - 1;
    while index >= 0
      invariant -1 <= index < Min(|a|, |b|)
      invariant forall i :: index < i < Min(|a|, |b|) ==> a[i] & b[i] == 0
    {
      if a[index] & b[index] != 0 {
        ConflictsIffSharedBit(a, b);
        return true;
      }
      index := index - 1;
    }
    ConflictsIffSharedBit(a, b);
    return false;
  }

  /** A conflict is exactly a shared bit. */
  lemma ConflictsIffSharedBit(a: seq<Word>, b: seq<Word>)
    ensures Conflicts(a, b) <==> Bits(a) * Bits(b) != iset{}
  {
    if Conflicts(a, b) {
      var i :| 0 <= i < Min(|a|, |b|) && a[i] & b[i] != 0;
      var p := SharedPosOfWord(a, b, i);
      assert p in Bits(a) * Bits(b);
    }
    if Bits(a) * Bits(b) != iset{} {
      var p :| p in Bits(a) * Bits(b);
      SharedPosMakesConflict(a, b, p);
    }
  }

  lemma SharedPosOfWord(a: seq<Word>, b: seq<Word>, i: nat) returns (p: Pos)
    requires i < |a| && i < |b| && a[i] & b[i] != 0
    ensures HasPos(a, p) && HasPos(b, p)
  {
    var k := NonzeroWordHasBit(a[i] & b[i]);
    AndBit(a[i], b[i], k);
    p := Pos(i, k);
  }

  lemma SharedPosMakesConflict(a: seq<Word>, b: seq<Word>, p: Pos)
    requires HasPos(a, p) && HasPos(b, p)
    ensures Conflicts(a, b)
  {
    AndBit(a[p.word], b[p.word], p.lane);
    assert a[p.word] & b[p.word] != 0;
  }

  /** The conflict test is symmetric. */
  lemma ConflictsSymmetric(a: seq<Word>, b: seq<Word>)
    ensures Conflicts(a, b) <==> Conflicts(b, a)
  {
    ConflictsIffSharedBit(a, b);
    ConflictsIffSharedBit(b, a);
  }

  /** Conflicting with a merge is conflicting with either part. */
  lemma ConflictsWithMerge(a: seq<Word>, b: seq<Word>, c: seq<Word>)
    ensures Conflicts(a, Merge(b, c)) <==> Conflicts(a, b) || Conflicts(a, c)
  {
    ConflictsIffSharedBit(a, Merge(b, c));
    ConflictsIffSharedBit(a, b);
    ConflictsIffSharedBit(a, c);
    MergeIsUnion(b, c);
  }
}
