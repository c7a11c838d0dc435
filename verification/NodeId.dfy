/** Kademlia node ids, their XOR distance, and the bucket a distance falls in. */
module NodeId {

  const ID_BYTES: nat := 20
  const NUM_BUCKETS: nat := 160

  type NodeId = s: seq<bv8> | |s| == ID_BYTES witness seq(ID_BYTES, _ => 0)

  function Distance(a: NodeId, b: NodeId): NodeId {
    seq(ID_BYTES, i requires 0 <= i < ID_BYTES => a[i] ^ b[i])
  }

  function Pow2(n: nat): (r: nat)
    ensures r > 0
  {
    if n == 0 then 1 else 2 * Pow2(n - 1)
  }

  /** The number a byte array stands for, most significant byte first. */
  function Value(d: seq<bv8>): nat {
    if d == [] then 0 else (d[0] as int) * Pow2(8 * (|d| - 1)) + Value(d[1..])
  }

  /** How byte arrays compare: at the first difference. */
  predicate ArrayLess(a: seq<bv8>, b: seq<bv8>) {
    if a == [] || b == [] then a == [] && b != []
    else a[0] < b[0] || (a[0] == b[0] && ArrayLess(a[1..], b[1..]))
  }

  function ByteLeadingZeros(b: bv8): nat {
    if b >= 0x80 then 0
    else if b >= 0x40 then 1
    else if b >= 0x20 then 2
    else if b >= 0x10 then 3
    else if b >= 0x08 then 4
    else if b >= 0x04 then 5
    else if b >= 0x02 then 6
    else if b >= 0x01 then 7
    else 8
  }

  function LeadingZeros(d: seq<bv8>): nat {
    if d == [] then 0
    else if d[0] == 0 then 8 + LeadingZeros(d[1..])
    else ByteLeadingZeros(d[0])
  }

  method DistanceTo(a: NodeId, b: NodeId) returns (d: NodeId)
    ensures d == Distance(a, b)
  {
    var bytes := new bv8[ID_BYTES](_ => 0);
    for i := 0 to ID_BYTES
      invariant forall k :: 0 <= k < i ==> bytes[k] == a[k] ^ b[k]
    {
      bytes[i] := a[i] ^ b[i];
    }
    d := bytes[..];
  }

  method DistanceLeadingZeros(a: NodeId, b: NodeId) returns (zeros: nat)
    ensures zeros == LeadingZeros(Distance(a, b))
  {
    var dist := DistanceTo(a, b);
    zeros := 0;
    for i := 0 to ID_BYTES
      invariant LeadingZeros(dist) == zeros + LeadingZeros(dist[i..])
    {
      assert dist[i..][1..] == dist[i + 1..];
      if dist[i] == 0 {
        zeros := zeros + 8;
      } else {
        zeros := zeros + ByteLeadingZeros(dist[i]);
        return;
      }
    }
  }

  function BucketIndex(own: NodeId, id: NodeId): nat {
    var zeros := LeadingZeros(Distance(own, id));
    if zeros >= NUM_BUCKETS then NUM_BUCKETS - 1 else NUM_BUCKETS - 1 - zeros
  }

  /** The distance as a number; all comparisons of distances are comparisons of these. */
  function Dist(a: NodeId, b: NodeId): nat {
    Value(Distance(a, b))
  }

  // ------------------------------------------------------------ arithmetic

  lemma {:induction false} Pow2Add(a: nat, b: nat)
    ensures Pow2(a + b) == Pow2(a) * Pow2(b)
  {
    if a > 0 {
      Pow2Add(a - 1, b);
    }
  }

  lemma {:induction false} Pow2Monotone(a: nat, b: nat)
    requires a < b
    ensures 2 * Pow2(a) <= Pow2(b)
  {
    if a + 1 < b {
      Pow2Monotone(a, b - 1);
    }
  }

  lemma ByteBounds(b: bv8)
    ensures 0 <= b as int < 0x100
    ensures b as int == 0 <==> b == 0
    ensures b != 0 ==> ByteLeadingZeros(b) <= 7
    ensures b != 0 ==> Pow2(7 - ByteLeadingZeros(b)) <= b as int < Pow2(8 - ByteLeadingZeros(b))
  {
    assert Pow2(0) == 1 && Pow2(1) == 2 && Pow2(2) == 4 && Pow2(3) == 8 && Pow2(4) == 16;
    assert Pow2(5) == 32 && Pow2(6) == 64 && Pow2(7) == 128 && Pow2(8) == 256;
  }

  lemma ByteOrder(a: bv8, b: bv8)
    ensures a < b <==> (a as int) < (b as int)
  {
  }

  lemma MulMonotone(x: int, y: int, w: nat)
    requires x <= y
    ensures x * w <= y * w
  {
  }

  lemma HeadDecides(x: int, y: int, w: nat, r: nat, s: nat)
    requires r < w && s < w
    ensures x < y ==> x * w + r < y * w + s
  {
    if x < y {
      MulMonotone(x + 1, y, w);
      assert (x + 1) * w == x * w + w;
    }
  }

  lemma {:induction false} ValueBound(d: seq<bv8>)
    ensures Value(d) < Pow2(8 * |d|)
  {
    hide Pow2;
    if d != [] {
      ValueBound(d[1..]);
      ByteBounds(d[0]);
      Pow8();
      Pow2Add(8, 8 * (|d| - 1));
      HeadDecides(d[0] as int, 256, Pow2(8 * (|d| - 1)), Value(d[1..]), 0);
    } else {
      PowPositive(0);
    }
  }

  lemma PowPositive(n: nat)
    ensures Pow2(n) > 0
  {
  }

  lemma Pow8()
    ensures Pow2(8) == 256
  {
    assert Pow2(4) == 16;
    Pow2Add(4, 4);
  }

  /** Comparing the arrays is comparing the numbers. */
  lemma {:induction false} ArrayOrderIsValueOrder(a: seq<bv8>, b: seq<bv8>)
    requires |a| == |b|
    ensures ArrayLess(a, b) <==> Value(a) < Value(b)
    ensures a == b <==> Value(a) == Value(b)
  {
    hide Pow2;
    if a != [] {
      ArrayOrderIsValueOrder(a[1..], b[1..]);
      ValueBound(a[1..]);
      ValueBound(b[1..]);
      HeadTail(a, b);
      HeadsCompare(a[0], b[0], Pow2(8 * (|a| - 1)), Value(a[1..]), Value(b[1..]));
    }
  }

  lemma HeadTail(a: seq<bv8>, b: seq<bv8>)
    requires |a| == |b| && a != []
    ensures a == b <==> a[0] == b[0] && a[1..] == b[1..]
  {
    assert a == [a[0]] + a[1..] && b == [b[0]] + b[1..];
  }

  lemma HeadsCompare(a: bv8, b: bv8, w: nat, r: nat, s: nat)
    requires r < w && s < w
    ensures a < b ==> (a as int) * w + r < (b as int) * w + s
    ensures b < a ==> (b as int) * w + s < (a as int) * w + r
    ensures a < b || a == b || b < a
  {
    ByteOrder(a, b);
    ByteOrder(b, a);
    HeadDecides(a as int, b as int, w, r, s);
    HeadDecides(b as int, a as int, w, s, r);
  }

  lemma HeadLocates(b: bv8, rest: nat, tail: nat)
    requires b != 0 && tail < Pow2(rest)
    ensures var k, v := ByteLeadingZeros(b), (b as int) * Pow2(rest) + tail;
      k <= 7 && Pow2(rest + 7 - k) <= v < Pow2(rest + 8 - k)
  {
    ByteBounds(b);
    var k := ByteLeadingZeros(b);
    Pow2Add(7 - k, rest);
    Pow2Add(8 - k, rest);
    Between(Pow2(7 - k), b as int, Pow2(8 - k), Pow2(rest), tail);
  }

  lemma Between(lo: int, x: int, hi: int, w: nat, tail: nat)
    requires lo <= x < hi && tail < w
    ensures lo * w <= x * w + tail < hi * w
  {
    MulMonotone(lo, x, w);
    HeadDecides(x, hi, w, tail, 0);
  }

  /** Leading zeros locate the value between two powers of two. */
  lemma {:induction false} LeadingZerosLocate(d: seq<bv8>)
    ensures LeadingZeros(d) <= 8 * |d|
    ensures Value(d) == 0 <==> LeadingZeros(d) == 8 * |d|
    ensures Value(d) > 0 ==>
      Pow2(8 * |d| - 1 - LeadingZeros(d)) <= Value(d) < Pow2(8 * |d| - LeadingZeros(d))
  {
    hide Pow2, ByteLeadingZeros;
    if d != [] {
      if d[0] != 0 {
        ValueBound(d[1..]);
        HeadLocates(d[0], 8 * (|d| - 1), Value(d[1..]));
      } else {
        LeadingZerosLocate(d[1..]);
        ByteBounds(d[0]);
        assert (d[0] as int) * Pow2(8 * (|d| - 1)) == 0;
      }
    }
  }

  // -------------------------------------------------------------- distance

  lemma XorFacts(a: bv8, b: bv8, t: bv8)
    ensures a ^ b == 0 <==> a == b
    ensures a ^ t == b ^ t <==> a == b
  {
  }

  lemma {:induction false} ZeroValue(d: seq<bv8>)
    ensures Value(d) == 0 <==> forall i :: 0 <= i < |d| ==> d[i] == 0
  {
    if d != [] {
      ZeroValue(d[1..]);
      ByteBounds(d[0]);
      var w := Pow2(8 * (|d| - 1));
      assert d[0] != 0 ==> (d[0] as int) * w >= w;
      assert d[0] == 0 ==> (d[0] as int) * w == 0;
      assert forall i :: 0 < i < |d| ==> d[i] == d[1..][i - 1];
    }
  }

  lemma DistZero(a: NodeId, b: NodeId)
    ensures Dist(a, b) == 0 <==> a == b
  {
    hide Value;
    var d := Distance(a, b);
    ZeroValue(d);
    forall i | 0 <= i < ID_BYTES
      ensures d[i] == 0 <==> a[i] == b[i]
    {
      XorFacts(a[i], b[i], 0);
    }
    if Dist(a, b) == 0 {
      assert forall i :: 0 <= i < ID_BYTES ==> d[i] == 0;
      assert a == b;
    }
  }

  /** No two ids are at the same distance from a target. */
  lemma DistInjective(a: NodeId, b: NodeId, target: NodeId)
    ensures Dist(a, target) == Dist(b, target) <==> a == b
  {
    hide Value, ArrayLess;
    ArrayOrderIsValueOrder(Distance(a, target), Distance(b, target));
    if Distance(a, target) == Distance(b, target) {
      forall i | 0 <= i < ID_BYTES
        ensures a[i] == b[i]
      {
        assert Distance(a, target)[i] == Distance(b, target)[i];
        XorFacts(a[i], b[i], target[i]);
      }
    }
  }

  /** Bucket b holds exactly the distances in [2^b, 2^(b+1)). */
  lemma BucketIsDistanceRange(own: NodeId, id: NodeId, b: nat)
    requires id != own
    ensures BucketIndex(own, id) < NUM_BUCKETS
    ensures BucketIndex(own, id) == b <==> Pow2(b) <= Dist(own, id) < Pow2(b + 1)
  {
    hide Value, LeadingZeros, Distance, Pow2;
    DistZero(own, id);
    LeadingZerosLocate(Distance(own, id));
    var k := BucketIndex(own, id);
    assert Pow2(k) <= Dist(own, id) < Pow2(k + 1);
    if k < b {
      if k + 1 < b {
        Pow2Monotone(k + 1, b);
      }
    } else if b < k {
      if b + 1 < k {
        Pow2Monotone(b + 1, k);
      }
    }
  }

  // ---------------------------------------------------------- common prefixes

  /** The ids agree on their first k bits, the most significant bit of the first byte coming first. */
  predicate SamePrefix(a: NodeId, b: NodeId, k: nat)
    requires k <= 8 * ID_BYTES
  {
    && (forall i :: 0 <= i < k / 8 ==> a[i] == b[i])
    && (k % 8 > 0 ==> TopBits(a[k / 8], k % 8) == TopBits(b[k / 8], k % 8))
  }

  /** The r most significant bits of a byte. */
  function TopBits(b: bv8, r: nat): bv8
    requires 0 < r < 8
  {
    if r == 1 then b >> 7 else if r == 2 then b >> 6 else if r == 3 then b >> 5 else if r == 4 then b >> 4
    else if r == 5 then b >> 3 else if r == 6 then b >> 2 else b >> 1
  }

  lemma HighShifts(x: bv8, y: bv8)
    ensures x >> 7 == y >> 7 <==> x ^ y < 0x80
    ensures x >> 6 == y >> 6 <==> x ^ y < 0x40
    ensures x >> 5 == y >> 5 <==> x ^ y < 0x20
    ensures x >> 4 == y >> 4 <==> x ^ y < 0x10
  {
  }

  lemma LowShifts(x: bv8, y: bv8)
    ensures x >> 3 == y >> 3 <==> x ^ y < 0x08
    ensures x >> 2 == y >> 2 <==> x ^ y < 0x04
    ensures x >> 1 == y >> 1 <==> x ^ y < 0x02
  {
  }

  /** 2^(8-r). */
  function Above(r: nat): bv8
    requires 0 < r < 8
  {
    if r == 1 then 0x80 else if r == 2 then 0x40 else if r == 3 then 0x20 else if r == 4 then 0x10
    else if r == 5 then 0x08 else if r == 6 then 0x04 else 0x02
  }

  lemma ZerosBelow(b: bv8, r: nat)
    requires 0 < r < 8
    ensures ByteLeadingZeros(b) >= r <==> b < Above(r)
  {
  }

  lemma TopBitsDiffer(x: bv8, y: bv8, r: nat)
    requires 0 < r < 8
    ensures TopBits(x, r) == TopBits(y, r) <==> ByteLeadingZeros(x ^ y) >= r
  {
    hide ByteLeadingZeros;
    ZerosBelow(x ^ y, r);
    if r <= 4 {
      HighShifts(x, y);
    } else {
      LowShifts(x, y);
    }
  }

  /** At least k leading zeros: whole zero bytes, and then the zero top bits of the next. */
  lemma {:induction false} ZerosAre(d: seq<bv8>, k: nat)
    requires k <= 8 * |d|
    ensures LeadingZeros(d) >= k <==>
      ((forall i :: 0 <= i < k / 8 ==> d[i] == 0) && (k % 8 > 0 ==> ByteLeadingZeros(d[k / 8]) >= k % 8))
  {
    if k >= 8 {
      ZerosAre(d[1..], k - 8);
      assert (k - 8) / 8 == k / 8 - 1 && (k - 8) % 8 == k % 8;
      assert forall i :: 1 <= i < k / 8 ==> d[i] == d[1..][i - 1];
    }
  }

  /** XOR distance is closeness of prefixes: below 2^(160-k) exactly when the first k bits are the same. */
  lemma DistanceIsPrefix(a: NodeId, b: NodeId, k: nat)
    requires k <= 8 * ID_BYTES
    ensures Dist(a, b) < Pow2(8 * ID_BYTES - k) <==> SamePrefix(a, b, k)
  {
    hide Pow2, ByteLeadingZeros, TopBits, LeadingZeros, Value;
    var d := Distance(a, b);
    LeadingZerosLocate(d);
    var zeros := LeadingZeros(d);
    if zeros > k {
      Pow2Monotone(8 * ID_BYTES - zeros, 8 * ID_BYTES - k);
    } else if zeros + 1 < k {
      Pow2Monotone(8 * ID_BYTES - k, 8 * ID_BYTES - 1 - zeros);
    }
    ZerosAre(d, k);
    forall i | 0 <= i < ID_BYTES
      ensures d[i] == 0 <==> a[i] == b[i]
    {
      XorFacts(a[i], b[i], 0);
    }
    if k % 8 > 0 {
      TopBitsDiffer(a[k / 8], b[k / 8], k % 8);
    }
  }
}
