/**
 IPv4 prefixes over 32-bit addresses: membership, overlap and the broadcast address.
 */
module Prefixes {
  import opened Wrappers

  type Addr = bv32

  datatype Prefix = Prefix(net: Addr, len: nat)

  /** The first `len` bits set. */
  function Mask(len: nat): Addr
    requires len <= 32
  {
    if len == 0 then 0 else (0xFFFF_FFFF as bv32) << (32 - len)
  }

  function And(a: Addr, b: Addr): Addr {
    a & b
  }

  /** At most 32 bits long, and no bit set past them. */
  predicate Aligned(p: Prefix) {
    p.len <= 32 && And(p.net, Mask(p.len)) == p.net
  }

  /** A prefix as the program holds it: only aligned ones are ever built. */
  type Net = p: Prefix | Aligned(p) witness Prefix(0, 0)

  /** A parsed address and length: refused when too long or when a host bit is set. */
  function Parsed(raw: Addr, len: nat): (r: Option<Prefix>)
    ensures r.Some? <==> len <= 32 && Aligned(Prefix(raw, len))
    ensures r.Some? ==> r.value == Prefix(raw, len)
  {
    if len > 32 then None
    else
      hide Mask;
      hide And;
      var net := And(raw, Mask(len));
      if net != raw then None else Some(Prefix(net, len))
  }

  predicate Contains(p: Prefix, a: Addr)
    requires p.len <= 32
  {
    And(a, Mask(p.len)) == p.net
  }

  /** Compared under the shorter of the two masks. */
  predicate Overlaps(p: Prefix, q: Prefix)
    requires p.len <= 32 && q.len <= 32
  {
    var len := if p.len <= q.len then p.len else q.len;
    And(p.net, Mask(len)) == And(q.net, Mask(len))
  }

  function Broadcast(p: Prefix): Addr
    requires p.len <= 32
  {
    WithOnes(p.net, Mask(p.len))
  }

  function WithOnes(a: Addr, m: Addr): Addr {
    a | !m
  }

  // ---- the least address ---------------------------------------------------------------------

  lemma LeastUnder(a: Addr, m: Addr)
    ensures And(a, m) <= a && And(And(a, m), m) == And(a, m)
  {
  }

  /** Two addresses share their first `len` bits. */
  predicate Alike(a: Addr, b: Addr, len: nat)
    requires len <= 32
  {
    And(a, Mask(len)) == And(b, Mask(len))
  }

  /**
   What is accepted is an address no larger than any that shares its prefix bits; the prefix built from
   it holds exactly those.
   */
  lemma ParsedIsLeast(raw: Addr, len: nat)
    ensures Parsed(raw, len).Some? <==> len <= 32 && forall a :: Alike(a, raw, len) ==> raw <= a
    ensures Parsed(raw, len).Some? ==> forall a :: Contains(Parsed(raw, len).value, a) <==> Alike(a, raw, len)
  {
    if len <= 32 {
      NetIsAlike(raw, len);
      hide Mask, And, Alike, Contains;
      if Parsed(raw, len).Some? {
        forall a
          ensures Contains(Parsed(raw, len).value, a) <==> Alike(a, raw, len)
          ensures Alike(a, raw, len) ==> raw <= a
        {
          AlikeIsInside(raw, len, a);
        }
      }
    }
  }

  /** The address with the other bits cleared shares the prefix bits, and is smaller when it differs. */
  lemma NetIsAlike(raw: Addr, len: nat)
    requires len <= 32
    ensures Alike(And(raw, Mask(len)), raw, len) && And(raw, Mask(len)) <= raw
    ensures Aligned(Prefix(raw, len)) <==> And(raw, Mask(len)) == raw
  {
    LeastUnder(raw, Mask(len));
    hide Mask, And;
  }

  lemma AlikeIsInside(raw: Addr, len: nat, a: Addr)
    requires len <= 32 && Aligned(Prefix(raw, len))
    ensures Contains(Prefix(raw, len), a) <==> Alike(a, raw, len)
    ensures Alike(a, raw, len) ==> raw <= a
  {
    LeastUnder(a, Mask(len));
    hide Mask, And;
  }

  // ---- masks nest ----------------------------------------------------------------------------

  /** A mask one bit shorter is the mask shifted once more. */
  lemma MaskShifts(len: nat)
    requires len < 32
    ensures Mask(len) == Mask(len + 1) << 1
  {
    // One case per length, so that every shift is by a constant.
    match len
    case 0 => {} case 1 => {} case 2 => {} case 3 => {}
    case 4 => {} case 5 => {} case 6 => {} case 7 => {}
    case 8 => {} case 9 => {} case 10 => {} case 11 => {}
    case 12 => {} case 13 => {} case 14 => {} case 15 => {}
    case 16 => {} case 17 => {} case 18 => {} case 19 => {}
    case 20 => {} case 21 => {} case 22 => {} case 23 => {}
    case 24 => {} case 25 => {} case 26 => {} case 27 => {}
    case 28 => {} case 29 => {} case 30 => {} case 31 => {}
  }

  lemma ShiftUnder(m: Addr)
    requires And(m << 1, m) == m << 1
    ensures And((m << 1) << 1, m << 1) == (m << 1) << 1
  {
  }

  lemma {:induction false} MaskStep(len: nat)
    requires len < 32
    ensures And(Mask(len), Mask(len + 1)) == Mask(len)
    decreases 32 - len
  {
    MaskShifts(len);
    if len == 31 {
      assert Mask(32) == 0xFFFF_FFFF && Mask(31) == 0xFFFF_FFFE;
    } else {
      hide Mask;
      MaskShifts(len + 1);
      MaskStep(len + 1);
      ShiftUnder(Mask(len + 2));
    }
  }

  lemma AndThrough(a: Addr, m: Addr, n: Addr)
    requires And(m, n) == m
    ensures And(And(a, n), m) == And(a, m)
  {
  }

  lemma AndChain(a: Addr, b: Addr, c: Addr)
    requires And(a, b) == a && And(b, c) == b
    ensures And(a, c) == a
  {
  }

  lemma AndSelf(a: Addr)
    ensures And(a, a) == a
  {
  }

  lemma {:induction false} MasksNest(short: nat, long: nat)
    requires short <= long <= 32
    ensures And(Mask(short), Mask(long)) == Mask(short)
    decreases long
  {
    hide Mask, And;
    if short < long {
      MasksNest(short, long - 1);
      MaskStep(long - 1);
      AndChain(Mask(short), Mask(long - 1), Mask(long));
    } else {
      AndSelf(Mask(short));
    }
  }

  // ---- overlap is a common address -----------------------------------------------------------

  lemma OverlapsUnderShorter(p: Prefix, q: Prefix)
    requires Aligned(p) && Aligned(q) && p.len <= q.len
    ensures Overlaps(p, q) <==> exists a :: Contains(p, a) && Contains(q, a)
    ensures Overlaps(p, q) <==> Contains(p, q.net)
  {
    hide Mask, And;
    MasksNest(p.len, q.len);
    if Overlaps(p, q) {
      assert Contains(p, q.net) && Contains(q, q.net);
    }
    forall a | Contains(p, a) && Contains(q, a)
      ensures Overlaps(p, q)
    {
      AndThrough(a, Mask(p.len), Mask(q.len));
    }
  }

  /** Two aligned prefixes overlap exactly when some address is in both. */
  lemma OverlapsIsCommonAddress(p: Prefix, q: Prefix)
    requires Aligned(p) && Aligned(q)
    ensures Overlaps(p, q) <==> exists a :: Contains(p, a) && Contains(q, a)
  {
    assert p.len <= 32 && q.len <= 32;
    hide Mask, And, Aligned, Contains;
    assert Overlaps(p, q) <==> Overlaps(q, p);
    hide Overlaps;
    if p.len <= q.len {
      OverlapsUnderShorter(p, q);
    } else {
      OverlapsUnderShorter(q, p);
    }
  }

  /** The broadcast address is in the prefix, and is its largest address. */
  lemma BroadcastIsLargest(p: Prefix, a: Addr)
    requires Aligned(p) && Contains(p, a)
    ensures Contains(p, Broadcast(p)) && a <= Broadcast(p)
  {
    hide Mask, And, WithOnes;
    LargestUnder(a, p.net, Mask(p.len));
  }

  /** Every address of a prefix is between its network and its broadcast address. */
  lemma ContainedIsBetween(p: Net, a: Addr)
    requires Contains(p, a)
    ensures p.net <= a && a <= Broadcast(p)
  {
    LeastUnder(a, Mask(p.len));
    hide Mask, And, WithOnes;
    LargestUnder(a, p.net, Mask(p.len));
  }

  lemma LargestUnder(a: Addr, net: Addr, m: Addr)
    requires And(net, m) == net && And(a, m) == net
    ensures And(WithOnes(net, m), m) == net && a <= WithOnes(net, m)
  {
  }

  // ---- the low bits of a prefix of at most 29 ------------------------------------------------

  lemma LowBitsClear(len: nat)
    requires len <= 29
    ensures And(Mask(len), 7) == 0
  {
    MasksNest(len, 29);
    assert Mask(29) == 0xFFFF_FFF8;
    hide Mask;
    ClearUnder(Mask(len), Mask(29));
  }

  lemma ClearUnder(m: Addr, n: Addr)
    requires And(m, n) == m && And(n, 7) == 0
    ensures And(m, 7) == 0
  {
  }

  function Slot(p: Prefix, k: Addr): Addr {
    p.net | k
  }

  /** The three addresses after the network address are in the prefix, and their last bits tell them apart. */
  lemma SlotIsInside(p: Net, k: Addr)
    requires p.len <= 29 && 1 <= k <= 3
    ensures Contains(p, Slot(p, k)) && And(Slot(p, k), 7) == k
  {
    LowBitsClear(p.len);
    hide Mask;
    SlotUnder(p, k, Mask(p.len));
  }

  lemma SlotUnder(p: Prefix, k: Addr, m: Addr)
    requires And(p.net, m) == p.net && And(m, 7) == 0 && 1 <= k <= 3
    ensures And(Slot(p, k), m) == p.net && And(Slot(p, k), 7) == k
  {
  }

  lemma EdgeBits(p: Net)
    requires p.len <= 29
    ensures And(p.net, 7) == 0 && And(Broadcast(p), 7) == 7
  {
    LowBitsClear(p.len);
    hide Mask;
    EdgeUnder(p.net, Mask(p.len));
  }

  lemma EdgeUnder(net: Addr, m: Addr)
    requires And(net, m) == net && And(m, 7) == 0
    ensures And(net, 7) == 0 && And(WithOnes(net, m), 7) == 7
  {
  }

  // ---- zone blocks ---------------------------------------------------------------------------

  /** The block of zone `id`: 10.id.0.0/16. */
  function Block(id: bv8): (p: Net)
    ensures p.len == 16
  {
    BlockIsAligned(id);
    Prefix(BlockNet(id), 16)
  }

  function BlockNet(id: bv8): Addr {
    0x0A00_0000 | ((id as bv32) << 16)
  }

  lemma BlockIsAligned(id: bv8)
    ensures And(BlockNet(id), Mask(16)) == BlockNet(id)
  {
    assert Mask(16) == 0xFFFF_0000;
  }

  lemma BlockNetTells(i: bv8, j: bv8)
    requires BlockNet(i) == BlockNet(j)
    ensures i == j
  {
  }

  /** No address is in the blocks of two zones. */
  lemma BlocksAreDisjoint(i: bv8, j: bv8, a: Addr)
    requires Contains(Block(i), a) && Contains(Block(j), a)
    ensures i == j
  {
    hide And, Mask, BlockNet;
    BlockNetTells(i, j);
  }

  /** Every address is in the prefix of length 0, and no other prefix of that length exists. */
  lemma DefaultContainsAll(p: Net, a: Addr)
    requires p.len == 0
    ensures p == Prefix(0, 0) && Contains(p, a)
  {
    AndZero(p.net);
    AndZero(a);
    hide And;
  }

  lemma AndZero(a: Addr)
    ensures And(a, 0) == 0
  {
  }

  /** The prefix of one address. */
  function Single(a: Addr): (p: Net)
    ensures p.len == 32
  {
    SingleIsAligned(a);
    Prefix(a, 32)
  }

  lemma SingleIsAligned(a: Addr)
    ensures And(a, Mask(32)) == a
  {
    assert Mask(32) == 0xFFFF_FFFF;
  }

  lemma SingleContains(a: Addr, b: Addr)
    ensures Contains(Single(a), b) <==> a == b
  {
    SingleIsAligned(b);
    hide And, Mask;
  }
}
