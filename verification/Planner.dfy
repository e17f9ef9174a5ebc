/** How a backup is cut into layers: the plan made from the estimate, and the rules that close a layer. */
module Planner {
  import opened Common

  const MIN_CHUNK_SIZE := 0x10_0000        // 1 MiB
  const MAX_CHUNK_SIZE := 0x4000_0000      // 1 GiB
  const MAX_PLANNED_CHUNK := 0x400_0000    // 64 MiB
  const AVERAGE_CDC_CHUNK := 0x40_0000     // 4 MiB

  datatype LayerLimits = LayerLimits(maxDataLayers: int, maxLayerBytes: int, minLayerBytes: int, targetLayerBytes: int)

  datatype Warning = LayersGrown(layerBytes: int) | LayerOversize(layerBytes: int)

  datatype Plan = Plan(layerBytes: int, layerCount: int, chunkBytes: int, warnings: seq<Warning>)

  function CeilDiv(a: int, b: int): int
    requires b > 0
  {
    (a + b - 1) / b
  }

  lemma CeilDivCovers(a: int, b: int)
    requires a > 0 && b > 0
    ensures CeilDiv(a, b) >= 1 && CeilDiv(a, b) * b >= a && (CeilDiv(a, b) - 1) * b < a
  {
    var q, r := (a + b - 1) / b, (a + b - 1) % b;
    assert a + b - 1 == q * b + r;
    assert (q - 1) * b == q * b - b;
  }

  /** The smallest count that covers is the quotient rounded up. */
  lemma CeilDivLeast(a: int, b: int, count: int)
    requires a > 0 && b > 0 && count * b >= a
    ensures CeilDiv(a, b) <= count
  {
    CeilDivCovers(a, b);
    LessTimes(CeilDiv(a, b) - 1, count, b);
  }

  lemma LessTimes(x: int, y: int, b: int)
    requires b > 0 && x * b < y * b
    ensures x < y
  {
  }

  /** That many layers of that size hold the estimate. */
  predicate Covers(count: int, bytes: int, estimate: int) { count * bytes >= estimate }

  /** Raising the layers to a larger size needs no more of them. */
  lemma LargerLayersCover(estimate: int, count: int, bytes: int, larger: int)
    requires estimate > 0 && 0 < bytes <= larger && count >= 1 && Covers(count, bytes, estimate)
    ensures 1 <= CeilDiv(estimate, larger) <= count && Covers(CeilDiv(estimate, larger), larger, estimate)
  {
    assert count * larger == count * bytes + count * (larger - bytes);
    CeilDivLeast(estimate, larger, count);
    CeilDivCovers(estimate, larger);
  }

  lemma OneLayerCovers(bytes: int, estimate: int)
    ensures Covers(1, bytes, estimate) <==> bytes >= estimate
  {
  }

  /** 64 chunks to a layer, as far as the bounds allow. */
  function ClampChunkBytes(layerBytes: int): (c: int)
    ensures MIN_CHUNK_SIZE <= c <= MAX_PLANNED_CHUNK
    ensures (c > MIN_CHUNK_SIZE ==> 64 * c <= layerBytes) && (c < MAX_PLANNED_CHUNK ==> layerBytes < 64 * (c + 1))
  {
    Min(Max(layerBytes / 64, MIN_CHUNK_SIZE), MAX_PLANNED_CHUNK)
  }

  predicate UsableLimits(limits: LayerLimits) {
    limits.maxDataLayers >= 1 && limits.minLayerBytes >= 1 && limits.targetLayerBytes >= 1
  }

  /** The limits of a run; the caller may set another target. */
  function RunLimits(maxLayerSize: int): (limits: LayerLimits)
    ensures UsableLimits(limits)
  {
    LayerLimits(118, 0x1_4000_0000, 0x100_0000, if maxLayerSize > 0 then maxLayerSize else 0x4000_0000)
  }

  /** Layers of the target size, larger when there would be too many, never below the minimum. */
  method SizeLayers(estimate: int, limits: LayerLimits) returns (layerBytes: int, layerCount: int, warnings: seq<Warning>)
    requires UsableLimits(limits) && estimate > 0
    ensures 1 <= layerCount <= limits.maxDataLayers && Covers(layerCount, layerBytes, estimate) && layerBytes >= limits.minLayerBytes
    ensures limits.targetLayerBytes >= limits.minLayerBytes && CeilDiv(estimate, limits.targetLayerBytes) <= limits.maxDataLayers ==>
              layerCount == CeilDiv(estimate, limits.targetLayerBytes) && layerBytes == limits.targetLayerBytes
    ensures CeilDiv(estimate, limits.targetLayerBytes) > limits.maxDataLayers && layerBytes > limits.minLayerBytes ==>
              !Covers(limits.maxDataLayers, layerBytes - 1, estimate)
    ensures forall w :: w in warnings ==> w.LayersGrown?
  {
    warnings := [];
    layerBytes := limits.targetLayerBytes;
    layerCount := CeilDiv(estimate, layerBytes);
    CeilDivCovers(estimate, layerBytes);
    if layerCount > limits.maxDataLayers {
      layerCount := limits.maxDataLayers;
      layerBytes := CeilDiv(estimate, layerCount);
      CeilDivCovers(estimate, layerCount);
      warnings := warnings + [LayersGrown(layerBytes)];
    }
    if layerBytes < limits.minLayerBytes {
      LargerLayersCover(estimate, layerCount, layerBytes, limits.minLayerBytes);
      layerBytes := limits.minLayerBytes;
      layerCount := CeilDiv(estimate, layerBytes);
    }
  }

  /** A single layer takes the size of the input, but not less than the minimum. */
  method FitOne(estimate: int, limits: LayerLimits, layerBytes: int) returns (fitted: int)
    requires estimate > 0 && Covers(1, layerBytes, estimate)
    ensures fitted == Max(estimate, limits.minLayerBytes) && Covers(1, fitted, estimate)
  {
    OneLayerCovers(layerBytes, estimate);
    fitted := layerBytes;
    if fitted > estimate {
      fitted := estimate;
    }
    if fitted < limits.minLayerBytes {
      fitted := limits.minLayerBytes;
    }
    OneLayerCovers(fitted, estimate);
  }

  /** The plan covers the estimate within the layer limit, and its chunk size is one the splitter takes. */
  method PlanLayers(estimate: int, limits: LayerLimits) returns (plan: Option<Plan>)
    ensures plan.Some? <==> UsableLimits(limits)
    ensures plan.Some? ==>
              && 1 <= plan.value.layerCount <= limits.maxDataLayers
              && Covers(plan.value.layerCount, plan.value.layerBytes, estimate)
              && plan.value.layerBytes >= limits.minLayerBytes
              && plan.value.chunkBytes == ClampChunkBytes(plan.value.layerBytes)
              && (plan.value.chunkBytes > MIN_CHUNK_SIZE ==> 64 * plan.value.chunkBytes <= plan.value.layerBytes)
              && (plan.value.chunkBytes < MAX_PLANNED_CHUNK ==> plan.value.layerBytes < 64 * (plan.value.chunkBytes + 1))
              && MIN_CHUNK_SIZE <= plan.value.chunkBytes <= MAX_PLANNED_CHUNK < MAX_CHUNK_SIZE
    ensures plan.Some? && estimate <= 0 ==> plan.value.layerCount == 1 && plan.value.layerBytes == limits.minLayerBytes
    ensures plan.Some? && estimate > 0 && limits.targetLayerBytes >= limits.minLayerBytes
              && CeilDiv(estimate, limits.targetLayerBytes) <= limits.maxDataLayers ==>
              && plan.value.layerCount == CeilDiv(estimate, limits.targetLayerBytes)
              && (plan.value.layerCount > 1 ==> plan.value.layerBytes == limits.targetLayerBytes)
    ensures plan.Some? && estimate > 0 && CeilDiv(estimate, limits.targetLayerBytes) > limits.maxDataLayers
              && plan.value.layerCount > 1 && plan.value.layerBytes > limits.minLayerBytes ==>
              !Covers(limits.maxDataLayers, plan.value.layerBytes - 1, estimate)
    ensures plan.Some? && plan.value.layerCount == 1 && estimate > 0 ==>
              plan.value.layerBytes == Max(estimate, limits.minLayerBytes)
    ensures plan.Some? && estimate > 0 ==>
              (LayerOversize(plan.value.layerBytes) in plan.value.warnings <==> plan.value.layerBytes > limits.maxLayerBytes)
  {
    if limits.maxDataLayers < 1 || limits.minLayerBytes < 1 || limits.targetLayerBytes < 1 {
      return None;
    }
    if estimate <= 0 {
      OneLayerCovers(limits.minLayerBytes, estimate);
      return Some(Plan(limits.minLayerBytes, 1, ClampChunkBytes(limits.minLayerBytes), []));
    }
    var layerBytes, layerCount, warnings := SizeLayers(estimate, limits);
    if layerCount == 1 {
      layerBytes := FitOne(estimate, limits, layerBytes);
    }
    if layerBytes > limits.maxLayerBytes {
      warnings := warnings + [LayerOversize(layerBytes)];
    }
    plan := Some(Plan(layerBytes, layerCount, ClampChunkBytes(layerBytes), warnings));
  }

  // ---------- Layer boundaries ----------

  function PowerOfTwo(n: nat): nat { if n == 0 then 1 else 2 * PowerOfTwo(n - 1) }

  function BitLength(x: nat): nat { if x == 0 then 0 else 1 + BitLength(x / 2) }

  /** A content boundary closes when the low bits of the digest prefix are zero. */
  datatype Boundary = Fixed(size: int) | Content(min: int, max: int, modulus: nat)

  function NewContentBoundary(target: int, min: int, max: int): Boundary {
    var t := if target <= 0 then 0x400_0000 else target;
    var lo := if min <= 0 then t / 4 else min;
    var hi := if max <= 0 || max < lo then t * 4 else max;
    var top := if hi < t then t else hi;
    var ratio := CeilDiv(t, AVERAGE_CDC_CHUNK);
    Content(lo, top, PowerOfTwo(BitLength(Max(ratio - 1, 0))))
  }

  /** The first eight bytes of a digest as a number. */
  function DigestPrefix(sum: Bytes): nat {
    var b := if |sum| < 8 then sum else sum[..8];
    Number(b)
  }

  function Number(b: Bytes): nat {
    if |b| == 0 then 0 else 0x100 * Number(b[..|b| - 1]) + b[|b| - 1]
  }

  predicate ShouldClose(b: Boundary, layerBytes: int, sum: Bytes) {
    match b
    case Fixed(size) => size > 0 && layerBytes >= size
    case Content(min, max, modulus) =>
      layerBytes >= max || (layerBytes >= min && modulus > 0 && DigestPrefix(sum) % modulus == 0)
  }

  /** Between its bounds a content boundary closes at the chunks whose digest prefix is a multiple of the modulus. */
  ghost predicate IsMultiple(x: nat, modulus: nat) { exists k: nat :: x == k * modulus }

  lemma MultipleIffRemainder(x: nat, modulus: nat)
    requires modulus > 0
    ensures x % modulus == 0 <==> IsMultiple(x, modulus)
  {
    assert x == (x / modulus) * modulus + x % modulus;
    if k: nat :| x == k * modulus {
      RemainderOfMultiple(x, k, x / modulus, modulus, x % modulus);
    }
  }

  lemma MultipleAtLeast(d: int, modulus: nat)
    requires modulus > 0
    ensures d > 0 ==> d * modulus >= modulus
    ensures d < 0 ==> d * modulus < 0
  {
    assert d * modulus == (d - 1) * modulus + modulus;
    assert d > 0 ==> (d - 1) * modulus >= 0;
  }

  lemma RemainderOfMultiple(x: nat, k: nat, q: nat, modulus: nat, r: nat)
    requires modulus > 0 && x == k * modulus && x == q * modulus + r && r < modulus
    ensures r == 0
  {
    assert (k - q) * modulus == k * modulus - q * modulus;
    MultipleAtLeast(k - q, modulus);
  }

  /**
   * A content boundary never closes a layer below its minimum and never lets one grow past its maximum. In between, the
   * digest of the last chunk decides alone, with a modulus that makes the target the expected size.
   */
  lemma ContentBoundaryBounds(target: int, min: int, max: int, layerBytes: int, sum: Bytes)
    requires target > 0 && min > 0 && max >= target && max >= min
    ensures var b := NewContentBoundary(target, min, max);
            && b.Content? && b.min == min && b.max == max
            && (ShouldClose(b, layerBytes, sum) ==> layerBytes >= min)
            && (layerBytes >= max ==> ShouldClose(b, layerBytes, sum))
            && (min <= layerBytes < max ==> (ShouldClose(b, layerBytes, sum) <==> IsMultiple(DigestPrefix(sum), b.modulus)))
            && b.modulus * AVERAGE_CDC_CHUNK >= target && (b.modulus > 1 ==> b.modulus / 2 * AVERAGE_CDC_CHUNK < target)
  {
    var ratio := CeilDiv(target, AVERAGE_CDC_CHUNK);
    CeilDivCovers(target, AVERAGE_CDC_CHUNK);
    BitLengthBounds(ratio - 1);
    MultipleIffRemainder(DigestPrefix(sum), PowerOfTwo(BitLength(ratio - 1)));
  }

  /** Without bounds of its own a boundary keeps layers between a quarter and four times the target. */
  lemma DefaultBoundaryBounds(target: int, layerBytes: int, sum: Bytes)
    requires target > 0
    ensures var b := NewContentBoundary(target, 0, 0);
            && (ShouldClose(b, layerBytes, sum) ==> layerBytes >= target / 4)
            && (layerBytes >= 4 * target ==> ShouldClose(b, layerBytes, sum))
  {
  }

  /** The power of two named by the bit length is the least one above the number. */
  lemma {:induction false} BitLengthBounds(x: nat)
    ensures x < PowerOfTwo(BitLength(x)) && PowerOfTwo(BitLength(x)) > 0
    ensures x > 0 ==> PowerOfTwo(BitLength(x)) <= 2 * x
    ensures PowerOfTwo(BitLength(x)) > 1 ==> PowerOfTwo(BitLength(x)) / 2 <= x
  {
    if x > 0 {
      BitLengthBounds(x / 2);
    }
  }

  /** Digest prefixes of equal length are told apart by their numbers. */
  lemma {:induction false} NumberInjective(a: Bytes, b: Bytes)
    requires |a| == |b| && Number(a) == Number(b)
    ensures a == b
  {
    if |a| > 0 {
      var x, y := a[..|a| - 1], b[..|b| - 1];
      assert Number(a) % 0x100 == a[|a| - 1] && Number(b) % 0x100 == b[|b| - 1];
      NumberInjective(x, y);
      assert a == x + [a[|a| - 1]] && b == y + [b[|b| - 1]];
    }
  }

  lemma PrefixTold(a: Bytes, b: Bytes)
    requires |a| >= 8 && |b| >= 8 && DigestPrefix(a) == DigestPrefix(b)
    ensures a[..8] == b[..8]
  {
    NumberInjective(a[..8], b[..8]);
  }
}
