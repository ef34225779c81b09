/**
  The byte-wise Fletcher checksum of `src/checksum.rs` (`fletcher16`): two accumulators kept
  modulo 255 and folded into a `u16`. This is the mod-255 form of Fletcher's checksum; the
  one's-complement form of RFC 1146, Appendix I, agrees with it only modulo 255 (a sum of
  255 is 0 here and 0xFF there).
 */
module Fletcher {
  import opened Common

  /** The two accumulators of the loop. */
  datatype Sums = Sums(sum1: u16, sum2: u16)

  /** Both accumulators lie in [0, 254], the range every `% 255` leaves them in. */
  predicate Reduced(s: Sums) {
    s.sum1 < 255 && s.sum2 < 255
  }

  /** One iteration of the loop body. The two u16 additions are checked against the u16
      range: with reduced accumulators they reach at most 254 + 255 and 254 + 254. */
  function Add(s: Sums, b: u8): (r: Sums)
    requires Reduced(s)
    ensures Reduced(r)
    ensures r.sum1 as int == (s.sum1 as int + b as int) % 255
    ensures r.sum2 as int == (s.sum2 as int + r.sum1 as int) % 255
  {
    var sum1 := (s.sum1 + b as u16) % 255;
    var sum2 := (s.sum2 + sum1) % 255;
    Sums(sum1, sum2)
  }

  /** The accumulators after the loop has consumed `data`, front to back. */
  function Run(data: seq<u8>): (s: Sums)
    ensures Reduced(s)
  {
    if |data| == 0 then Sums(0, 0) else Add(Run(data[..|data| - 1]), data[|data| - 1])
  }

  /** `(sum2 << 8) | sum1` on u16. With both accumulators below 256 the shift is a
      multiplication by 256 and the or is a sum (`ShiftOrIsSum`), so the fold is written
      arithmetically; the high byte is sum2 and the low byte is sum1. */
  function Pack(s: Sums): (r: u16)
    requires Reduced(s)
    ensures r as int / 256 == s.sum2 as int
    ensures r as int % 256 == s.sum1 as int
  {
    s.sum2 * 256 + s.sum1
  }

  /** On 16-bit words, shifting a byte up by 8 and or-ing in another byte is `hi * 256 + lo`. */
  lemma ShiftOrIsSum(hi: bv16, lo: bv16)
    requires hi < 256 && lo < 256
    ensures ((hi << 8) | lo) as int == hi as int * 256 + lo as int
  {
    assert (hi << 8) | lo == hi * 256 + lo;
    assert (hi * 256 + lo) as int == hi as int * 256 + lo as int;
  }

  /** Closed form of the first accumulator: the plain byte sum. */
  function Total(data: seq<u8>): int {
    if |data| == 0 then 0 else data[0] as int + Total(data[1..])
  }

  /** Closed form of the second accumulator: byte i weighted by n - i. */
  function Weighted(data: seq<u8>): int {
    if |data| == 0 then 0 else |data| * data[0] as int + Weighted(data[1..])
  }

  /** The checksum of `data`: high byte the second accumulator, low byte the first, each the
      residue modulo 255 of its closed form. */
  function Checksum16(data: seq<u8>): (r: u16)
    ensures r as int / 256 == Weighted(data) % 255
    ensures r as int % 256 == Total(data) % 255
  {
    RunClosedForm(data);
    Pack(Run(data))
  }

  /** The checksum of no data is 0. */
  lemma EmptyChecksum()
    ensures Checksum16([]) == 0
  {
    var r := Checksum16([]);
    assert r as int == r as int / 256 * 256 + r as int % 256;
  }

  /** `fletcher16` as written: a loop over the bytes, then the fold `(sum2 << 8) | sum1`,
      written as `Pack` (see `ShiftOrIsSum`). */
  method Fletcher16(data: seq<u8>) returns (r: u16)
    ensures r == Checksum16(data)
  {
    var sum1: u16 := 0;
    var sum2: u16 := 0;
    for i := 0 to |data|
      invariant Sums(sum1, sum2) == Run(data[..i])
    {
      assert data[..i + 1][..i] == data[..i];
      sum1 := (sum1 + data[i] as u16) % 255;
      sum2 := (sum2 + sum1) % 255;
    }
    assert data[..|data|] == data;
    r := Pack(Sums(sum1, sum2));
  }

  lemma {:induction false} TotalSnoc(d: seq<u8>, b: u8)
    ensures Total(d + [b]) == Total(d) + b as int
  {
    if |d| == 0 {
      assert d + [b] == [b];
    } else {
      assert (d + [b])[1..] == d[1..] + [b];
      TotalSnoc(d[1..], b);
    }
  }

  lemma {:induction false} WeightedSnoc(d: seq<u8>, b: u8)
    ensures Weighted(d + [b]) == Weighted(d) + Total(d + [b])
  {
    if |d| == 0 {
      assert d + [b] == [b];
    } else {
      assert (d + [b])[1..] == d[1..] + [b];
      WeightedSnoc(d[1..], b);
    }
  }

  /** The loop computes sum1 = (sum of the bytes) mod 255 and
      sum2 = (sum of (n - i) * data[i]) mod 255. */
  lemma {:induction false} RunClosedForm(data: seq<u8>)
    ensures Run(data).sum1 as int == Total(data) % 255
    ensures Run(data).sum2 as int == Weighted(data) % 255
  {
    if |data| > 0 {
      var p := data[..|data| - 1];
      var b := data[|data| - 1];
      assert data == p + [b];
      RunClosedForm(p);
      TotalSnoc(p, b);
      WeightedSnoc(p, b);
      var t, w := Total(p), Weighted(p);
      assert Run(data) == Add(Run(p), b);
      ModAdd(t, b as int);
      ModSum(w, Total(data));
    }
  }

  lemma ModAdd(a: int, b: int)
    ensures (a % 255 + b) % 255 == (a + b) % 255
  {
    var q := a / 255;
    assert a == 255 * q + a % 255;
    assert a + b == 255 * q + (a % 255 + b);
  }

  lemma ModAddRight(a: int, b: int)
    ensures (a + b % 255) % 255 == (a + b) % 255
  {
    ModAdd(b, a);
  }

  lemma ModSum(a: int, b: int)
    ensures (a % 255 + b % 255) % 255 == (a + b) % 255
  {
    ModAdd(a, b % 255);
    ModAddRight(a, b);
  }

  lemma {:induction false} TotalUpdate(d: seq<u8>, i: nat, b: u8)
    requires i < |d|
    ensures Total(d[i := b]) == Total(d) - d[i] as int + b as int
  {
    if i > 0 {
      assert d[i := b][1..] == d[1..][i - 1 := b];
      TotalUpdate(d[1..], i - 1, b);
    } else {
      assert d[i := b][1..] == d[1..];
    }
  }

  lemma ModDiff(a: int, b: int)
    requires a % 255 == b % 255
    ensures (a - b) % 255 == 0
  {
    assert a - b == 255 * (a / 255 - b / 255);
  }

  /** Changing one byte by an amount that is not a multiple of 255 changes the low byte of the
      checksum. */
  lemma LowByteDetectsSingleByteChange(d: seq<u8>, i: nat, b: u8)
    requires i < |d|
    requires (b as int - d[i] as int) % 255 != 0
    ensures Checksum16(d[i := b]) as int % 256 != Checksum16(d) as int % 256
  {
    TotalUpdate(d, i, b);
    if Total(d[i := b]) % 255 == Total(d) % 255 {
      ModDiff(Total(d[i := b]), Total(d));
    }
  }

  /** Swapping a 0 byte for 255, or a 255 byte for 0, leaves the low byte unchanged. */
  lemma LowByteBlindSpot(d: seq<u8>, i: nat)
    requires i < |d| && (d[i] == 0 || d[i] == 255)
    ensures Checksum16(d[i := 255 - d[i]]) as int % 256 == Checksum16(d) as int % 256
  {
    var t := Total(d);
    TotalUpdate(d, i, 255 - d[i]);
    if d[i] == 0 {
      assert Total(d[i := 255 - d[i]]) == t + 255;
      ModAdd(t, 255);
      assert (t + 255) % 255 == t % 255;
    } else {
      assert Total(d[i := 255 - d[i]]) + 255 == t;
      ModAdd(t - 255, 255);
      assert (t - 255) % 255 == t % 255;
    }
  }

  /** The low byte misses a single-byte change exactly when the byte stays the same or 0 and
      255 are swapped: those are the only two byte values it cannot tell apart. */
  lemma LowByteMissesExactly(d: seq<u8>, i: nat, b: u8)
    requires i < |d|
    ensures Checksum16(d[i := b]) as int % 256 == Checksum16(d) as int % 256
            <==> b == d[i] || (d[i] == 0 && b == 255) || (d[i] == 255 && b == 0)
  {
    if b == d[i] {
      assert d[i := b] == d;
    } else if (d[i] == 0 && b == 255) || (d[i] == 255 && b == 0) {
      LowByteBlindSpot(d, i);
    } else {
      assert (b as int - d[i] as int) % 255 != 0 by {
        if (b as int - d[i] as int) % 255 == 0 {
          ByteMultiple(d[i] as int, b as int);
        }
      }
      LowByteDetectsSingleByteChange(d, i, b);
    }
  }

  /** Two byte values that differ by a multiple of 255 are equal or are 0 and 255. */
  lemma ByteMultiple(x: int, y: int)
    requires 0 <= x < 256 && 0 <= y < 256 && (y - x) % 255 == 0
    ensures y == x || (x == 0 && y == 255) || (x == 255 && y == 0)
  {
    var q := (y - x) / 255;
    assert y - x == 255 * q;
  }
}
