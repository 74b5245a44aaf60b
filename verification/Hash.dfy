/** The granule-id hash: a 64-bit mixing function truncated to 32 bits. */
module Hash {

  /** A uint64_t chosen by the allocator. */
  datatype GranuleId = GranuleId(bits: bv64)

  const ZERO := GranuleId(0)

  function XorShift(x: bv64): bv64 {
    x ^ (x >> 33)
  }

  function Multiply1(x: bv64): bv64 {
    x * 0xff51afd7ed558ccd
  }

  function Multiply2(x: bv64): bv64 {
    x * 0xc4ceb9fe1a85ec53
  }

  /** The mix before truncation. */
  function Mix(x: bv64): bv64 {
    XorShift(Multiply2(XorShift(Multiply1(XorShift(x)))))
  }

  /** Truncation of the mix to uint32_t. */
  function HashGranuleId(id: GranuleId): nat {
    ((Mix(id.bits) & 0xffff_ffff) as bv32) as nat
  }

  /** The id as a number. */
  function Number(id: GranuleId): nat {
    id.bits as nat
  }

  /** The number determines the id. */
  lemma NumberBack(id: GranuleId)
    ensures Number(id) as bv64 == id.bits
  {}

  // Multiplication by the inverses of the two multipliers modulo 2^64.

  function Divide1(x: bv64): bv64 {
    x * 0x4f74430c22a54005
  }

  function Divide2(x: bv64): bv64 {
    x * 0x9cb4b2f8129337db
  }

  /** Undoes the mix. */
  function Unmix(m: bv64): bv64 {
    XorShift(Divide1(XorShift(Divide2(XorShift(m)))))
  }

  lemma ShiftTwice(x: bv64)
    ensures (x >> 33) >> 33 == 0
  {}

  lemma ShiftOfXor(x: bv64, y: bv64)
    ensures (x ^ y) >> 33 == (x >> 33) ^ (y >> 33)
  {}

  lemma XorCancels(x: bv64, y: bv64)
    ensures (x ^ y) ^ (y ^ 0) == x
  {}

  /** The shifted xor undoes itself. */
  lemma XorShiftInvolution(x: bv64)
    ensures XorShift(XorShift(x)) == x
  {
    ShiftOfXor(x, x >> 33);
    ShiftTwice(x);
    XorCancels(x, x >> 33);
  }

  // The product of each multiplier and its inverse, both ways round.

  lemma Divide1Product(x: bv64)
    ensures Divide1(x * 0xff51afd7ed558ccd) == x
  {}

  lemma Divide2Product(x: bv64)
    ensures Divide2(x * 0xc4ceb9fe1a85ec53) == x
  {}

  lemma Multiply1Product(x: bv64)
    ensures Multiply1(x * 0x4f74430c22a54005) == x
  {}

  lemma Multiply2Product(x: bv64)
    ensures Multiply2(x * 0x9cb4b2f8129337db) == x
  {}

  /** The two multiplications are bijections. */
  lemma MultiplyDivide(x: bv64)
    ensures Divide1(Multiply1(x)) == x && Multiply1(Divide1(x)) == x
    ensures Divide2(Multiply2(x)) == x && Multiply2(Divide2(x)) == x
  {
    Divide1Product(x);
    Divide2Product(x);
    Multiply1Product(x);
    Multiply2Product(x);
  }

  /** No two ids share a mix. */
  lemma UnmixMix(x: bv64)
    ensures Unmix(Mix(x)) == x
  {
    var a := Multiply1(XorShift(x));
    var b := Multiply2(XorShift(a));
    XorShiftInvolution(b);
    MultiplyDivide(XorShift(a));
    XorShiftInvolution(a);
    MultiplyDivide(XorShift(x));
    XorShiftInvolution(x);
  }

  /** Every 64-bit value is a mix. */
  lemma MixUnmix(m: bv64)
    ensures Mix(Unmix(m)) == m
  {
    var b := Divide2(XorShift(m));
    var a := Divide1(XorShift(b));
    XorShiftInvolution(a);
    MultiplyDivide(XorShift(b));
    XorShiftInvolution(b);
    MultiplyDivide(XorShift(m));
    XorShiftInvolution(m);
  }

  /** The hash of id 1, whose mix is 0xb456bcfc34c2cb2c. */
  lemma HashOfOne()
    ensures Mix(1) == 0xb456_bcfc_34c2_cb2c
    ensures HashGranuleId(GranuleId(1)) == 0x34c2_cb2c
  {}
}
