/** The nibble reordering of MXFP4 blocks, done in place. */
module Mxfp4 {

  function Low(b: bv8): bv8 { b & 0x0F }

  function High(b: bv8): bv8 { b >> 4 }

  /** Four-bit element `n` of the block that starts at `at`, two to a byte, low half first. */
  function Element(bytes: seq<bv8>, at: nat, n: nat): bv8
    requires n < 32 && at + 16 <= |bytes|
  {
    if n % 2 == 0 then Low(bytes[at + n / 2]) else High(bytes[at + n / 2])
  }

  /** Byte `m` of the block at `at`, packed as `byte`, holds element `m` low and element `m + 16` high. */
  ghost predicate Packs(before: seq<bv8>, at: nat, m: nat, byte: bv8)
    requires m < 16 && at + 16 <= |before|
  {
    Low(byte) == Element(before, at, m) && High(byte) == Element(before, at, m + 16)
  }

  ghost predicate BlockShuffled(before: seq<bv8>, after: seq<bv8>, at: nat)
    requires at + 16 <= |before| == |after|
  {
    forall p :: at <= p < at + 16 ==> Packs(before, at, p - at, after[p])
  }

  ghost predicate Shuffled(before: seq<bv8>, after: seq<bv8>) {
    && |before| == |after|
    && forall at :: 0 <= at && at + 16 <= |before| && at % 16 == 0 ==> BlockShuffled(before, after, at)
  }

  lemma PackedNibbles(a: bv8, b: bv8)
    ensures Low((a & 0x0F) | (b << 4)) == Low(a) && High((a & 0x0F) | (b << 4)) == Low(b)
    ensures Low((a >> 4) | (b & 0xF0)) == High(a) && High((a >> 4) | (b & 0xF0)) == High(b)
  {
  }

  lemma NibblesDetermine(a: bv8, b: bv8)
    requires Low(a) == Low(b) && High(a) == High(b)
    ensures a == b
  {
    assert a == (High(a) << 4) | Low(a);
    assert b == (High(b) << 4) | Low(b);
  }

  /** The inner loop: one block packed into the buffer. */
  method PackBlock(bts: array<bv8>, tmp: array<bv8>, i: nat)
    requires tmp.Length == 16 && bts != tmp && i + 16 <= bts.Length
    modifies tmp
    ensures forall m :: 0 <= m < 16 ==> Packs(bts[..], i, m, tmp[m])
  {
    var j := 0;
    while j < 8
      invariant 0 <= j <= 8
      invariant forall m :: 0 <= m < 2 * j ==> Packs(bts[..], i, m, tmp[m])
    {
      var a, b := bts[i + j], bts[i + j + 8];
      PackedNibbles(a, b);
      tmp[2 * j] := (a & 0x0F) | (b << 4);
      tmp[2 * j + 1] := (a >> 4) | (b & 0xF0);
      assert Packs(bts[..], i, 2 * j, tmp[2 * j]) && Packs(bts[..], i, 2 * j + 1, tmp[2 * j + 1]);
      j := j + 1;
    }
  }

  /** One block: packed into the buffer, then copied over the block. */
  method ShuffleBlock(bts: array<bv8>, tmp: array<bv8>, i: nat)
    requires tmp.Length == 16 && i + 16 <= bts.Length && bts != tmp
    modifies bts, tmp
    ensures forall m :: 0 <= m < 16 ==> Packs(old(bts[..]), i, m, tmp[m]) && bts[i + m] == tmp[m]
    ensures forall p :: 0 <= p < bts.Length && !(i <= p < i + 16) ==> bts[p] == old(bts[p])
  {
    PackBlock(bts, tmp, i);
    forall m | 0 <= m < 16 {
      bts[i + m] := tmp[m];
    }
  }

  method Shuffle(bts: array<bv8>)
    requires bts.Length % 16 == 0
    modifies bts
    ensures Shuffled(old(bts[..]), bts[..])
  {
    ghost var before := bts[..];
    var tmp := new bv8[16];
    var i := 0;
    while i < bts.Length
      invariant 0 <= i <= bts.Length && i % 16 == 0
      invariant forall at :: 0 <= at < i && at % 16 == 0 ==> BlockShuffled(before, bts[..], at)
      invariant forall p :: i <= p < bts.Length ==> bts[p] == before[p]
    {
      ghost var now := bts[..];
      ShuffleBlock(bts, tmp, i);
      BlockStep(before, now, tmp[..], bts[..], i);
      i := i + 16;
    }
  }

  lemma BlockStep(before: seq<bv8>, now: seq<bv8>, tmp: seq<bv8>, after: seq<bv8>, i: nat)
    requires |before| == |now| == |after| && |tmp| == 16 && i % 16 == 0 && i + 16 <= |before|
    requires forall at :: 0 <= at < i && at % 16 == 0 ==> BlockShuffled(before, now, at)
    requires forall p :: i <= p < |before| ==> now[p] == before[p]
    requires forall m :: 0 <= m < 16 ==> Packs(now, i, m, tmp[m]) && after[i + m] == tmp[m]
    requires forall p :: 0 <= p < i ==> after[p] == now[p]
    ensures forall at :: 0 <= at < i + 16 && at % 16 == 0 ==> BlockShuffled(before, after, at)
  {
    forall at | 0 <= at < i + 16 && at % 16 == 0 ensures BlockShuffled(before, after, at) {
      if at == i {
        forall p | i <= p < i + 16 ensures Packs(before, i, p - i, after[p]) {
          assert Packs(now, i, p - i, tmp[p - i]) && after[i + (p - i)] == tmp[p - i];
        }
      } else {
        assert at + 16 <= i && BlockShuffled(before, now, at);
        forall p | at <= p < at + 16 ensures Packs(before, at, p - at, after[p]) {
          assert Packs(before, at, p - at, now[p]);
        }
      }
    }
  }

  // ---- Nothing is lost

  /** Element `n` of a shuffled block: the low halves hold the first sixteen. */
  function ShuffledElement(bytes: seq<bv8>, at: nat, n: nat): bv8
    requires n < 32 && at + 16 <= |bytes|
  {
    if n < 16 then Low(bytes[at + n]) else High(bytes[at + n - 16])
  }

  /** A shuffled buffer holds every element of the original, where the new layout says. */
  lemma ElementsKept(before: seq<bv8>, after: seq<bv8>, at: nat, n: nat)
    requires Shuffled(before, after) && at + 16 <= |before| && at % 16 == 0 && n < 32
    ensures ShuffledElement(after, at, n) == Element(before, at, n)
  {
    assert BlockShuffled(before, after, at);
    if n < 16 {
      assert Packs(before, at, n, after[at + n]);
    } else {
      assert Packs(before, at, n - 16, after[at + (n - 16)]);
    }
  }

  lemma SameElementsSameByte(x: seq<bv8>, y: seq<bv8>, x': seq<bv8>, at: nat, j: nat)
    requires Shuffled(x, x') && Shuffled(y, x') && at + 16 <= |x| && at % 16 == 0 && j < 16
    ensures x[at + j] == y[at + j]
  {
    ElementsKept(x, x', at, 2 * j);
    ElementsKept(y, x', at, 2 * j);
    ElementsKept(x, x', at, 2 * j + 1);
    ElementsKept(y, x', at, 2 * j + 1);
    NibblesDetermine(x[at + j], y[at + j]);
  }

  lemma SamePackedByte(x: seq<bv8>, x': seq<bv8>, y': seq<bv8>, at: nat, m: nat)
    requires Shuffled(x, x') && Shuffled(x, y') && at + 16 <= |x| && at % 16 == 0 && m < 16
    ensures x'[at + m] == y'[at + m]
  {
    assert BlockShuffled(x, x', at) && BlockShuffled(x, y', at);
    assert Packs(x, at, m, x'[at + m]) && Packs(x, at, m, y'[at + m]);
    NibblesDetermine(x'[at + m], y'[at + m]);
  }

  /** Two buffers that shuffle alike are equal, and a buffer shuffles in one way only. */
  lemma ShuffleInjective(x: seq<bv8>, y: seq<bv8>, x': seq<bv8>, y': seq<bv8>)
    requires |x| % 16 == 0 && |y| % 16 == 0 && Shuffled(x, x') && Shuffled(y, y')
    ensures x' == y' <==> x == y
  {
    if x' == y' {
      forall p | 0 <= p < |x| ensures x[p] == y[p] {
        SameElementsSameByte(x, y, x', p - p % 16, p % 16);
      }
    }
    if x == y {
      forall p | 0 <= p < |x| ensures x'[p] == y'[p] {
        SamePackedByte(x, x', y', p - p % 16, p % 16);
      }
    }
  }

  function Joined(hi: bv8, lo: bv8): bv8 { (hi << 4) | lo }

  /** The inverse: every buffer of whole blocks is the shuffle of this one. */
  function Restored(after: seq<bv8>): (before: seq<bv8>)
    requires |after| % 16 == 0
    ensures |before| == |after|
  {
    seq(|after|, p requires 0 <= p < |after| =>
      var at, j := p - p % 16, p % 16;
      Joined(ShuffledElement(after, at, 2 * j + 1), ShuffledElement(after, at, 2 * j)))
  }

  lemma NibblesJoin(lo: bv8, hi: bv8)
    requires lo <= 0x0F && hi <= 0x0F
    ensures Low(Joined(hi, lo)) == lo && High(Joined(hi, lo)) == hi
  {
  }

  lemma NibbleBound(b: bv8)
    ensures Low(b) <= 0x0F && High(b) <= 0x0F
  {
  }

  lemma RestoredElement(after: seq<bv8>, at: nat, n: nat)
    requires |after| % 16 == 0 && at + 16 <= |after| && at % 16 == 0 && n < 32
    ensures Element(Restored(after), at, n) == ShuffledElement(after, at, n)
  {
    var j := n / 2;
    var p := at + j;
    assert p % 16 == j;
    var lo, hi := ShuffledElement(after, at, 2 * j), ShuffledElement(after, at, 2 * j + 1);
    assert lo <= 0x0F by { NibbleBound(after[if 2 * j < 16 then at + 2 * j else at + 2 * j - 16]); }
    assert hi <= 0x0F by { NibbleBound(after[if 2 * j < 16 then at + 2 * j + 1 else at + 2 * j - 15]); }
    NibblesJoin(lo, hi);
  }

  lemma RestoredShuffles(after: seq<bv8>)
    requires |after| % 16 == 0
    ensures Shuffled(Restored(after), after)
  {
    var before := Restored(after);
    forall at | 0 <= at && at + 16 <= |before| && at % 16 == 0 ensures BlockShuffled(before, after, at) {
      forall p | at <= p < at + 16 ensures Packs(before, at, p - at, after[p]) {
        RestoredElement(after, at, p - at);
        RestoredElement(after, at, p - at + 16);
      }
    }
  }
}
