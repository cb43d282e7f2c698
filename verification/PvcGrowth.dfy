/** Automatic growth of the chain-data volume (internal/controller/storage_manager.go). Sizes are in
    thousandths of a byte, as Quantity.MilliValue returns them, and all arithmetic is 64-bit. */
module PvcGrowth {
  import opened Ints

  /** Percentages as the CRD admits them (api/v1alpha1/taonode_types.go). */
  type Increment = p: int | 10 <= p <= 100 witness 10

  /** Go's division truncates toward zero. */
  function Quot100(x: int): int {
    if x >= 0 then x / 100 else -((-x) / 100)
  }

  /** The request that an expansion computes, before the test for a volume already at its maximum. */
  function NewSize(current: int64, increment: Increment, max: int64): int64 {
    var grown := Wrap64(current + Quot100(Wrap64(current * increment)));
    if grown > max then max else grown
  }

  class Claim {
    var request: int64

    /** expandPVCPreemptively. `written` tells whether an update was sent and accepted. */
    method Expand(increment: Increment, max: int64, updateOk: bool) returns (written: bool)
      modifies this
      ensures written == (old(request) < max && updateOk)
      ensures request == if written then NewSize(old(request), increment, max) else old(request)
    {
      var step := Wrap64(request * increment);
      step := Quot100(step);
      var size := Wrap64(request + step);
      if size > max {
        size := max;
      }
      if request >= max {
        return false;
      }
      if !updateOk {
        return false;
      }
      request := size;
      return true;
    }
  }

  /** evaluateDiskPressure: the threshold is checked first. */
  method EvaluateDiskPressure(claim: Claim, diskPercent: int32, threshold: int32, increment: Increment, max: int64, updateOk: bool)
    returns (written: bool)
    modifies claim
    ensures diskPercent < threshold ==> !written && claim.request == old(claim.request)
    ensures diskPercent >= threshold ==>
      && written == (old(claim.request) < max && updateOk)
      && claim.request == if written then NewSize(old(claim.request), increment, max) else old(claim.request)
  {
    if diskPercent < threshold {
      return false;
    }
    written := claim.Expand(increment, max, updateOk);
  }

  // ---------------------------------------------------------------------------------------------
  // One expansion
  // ---------------------------------------------------------------------------------------------

  lemma ProductRange(current: int, increment: Increment, max: int)
    requires 0 <= current < max
    ensures 10 * current <= current * increment <= 100 * current
  {
  }

  /** Where 100 times the maximum fits in 64 bits nothing wraps: the request grows strictly, to exactly
      the rounded-down percentage or the maximum, and never past it. */
  lemma ExpansionIsExact(current: int64, increment: Increment, max: int64)
    requires 1000 <= current < max && 100 * max < TWO_63
    ensures current < NewSize(current, increment, max) <= max
    ensures var ideal := current + current * increment / 100;
      NewSize(current, increment, max) == if ideal > max then max else ideal
  {
    ProductRange(current, increment, max);
  }

  lemma WrapResidue(x: int)
    requires x >= 0
    ensures Wrap64(x) == if x % TWO_64 < TWO_63 then x % TWO_64 else x % TWO_64 - TWO_64
  {
    var q, r := x / TWO_64, x % TWO_64;
    assert x == q * TWO_64 + r;
    if r < TWO_63 {
      assert (x + TWO_63) % TWO_64 == r + TWO_63;
    } else {
      assert x + TWO_63 == (q + 1) * TWO_64 + (r - TWO_63);
      assert (x + TWO_63) % TWO_64 == r - TWO_63;
    }
  }

  /** Exactly when an expansion grows the request: iff the low 64 bits of the product are at least 100,
      do not read as negative, and their hundredth still fits on top of the current size. */
  lemma GrowsIff(current: int64, increment: Increment, max: int64)
    requires 0 <= current < max
    ensures var low := (current * increment) % TWO_64;
      NewSize(current, increment, max) > current <==> 100 <= low < TWO_63 && current + low / 100 < TWO_63
  {
    ProductRange(current, increment, max);
    WrapResidue(current * increment);
    var low := (current * increment) % TWO_64;
    if low < TWO_63 {
      WrapResidue(current + low / 100);
    }
  }

  /** Between 2^63 and 2^64 the product reads as negative: every such expansion shrinks the request. */
  lemma OverflowShrinks(current: int64, increment: Increment, max: int64)
    requires 0 <= current < max && TWO_63 <= current * increment <= TWO_64 - 100
    ensures NewSize(current, increment, max) < current
  {
    WrapResidue(current * increment);
  }

  /** Such a request exists within int64: 100 TiB growing by 100% towards 200 TiB. */
  lemma HundredTebibytesShrink()
    ensures var tib := 1000 * 0x100_0000_0000; NewSize(100 * tib, 100, 200 * tib) < 100 * tib
  {
    var tib := 1000 * 0x100_0000_0000;
    OverflowShrinks(100 * tib, 100, 200 * tib);
  }

  // ---------------------------------------------------------------------------------------------
  // Repeated expansions
  // ---------------------------------------------------------------------------------------------

  /** The request after accepted expansions with these increments; at the maximum nothing is written. */
  function After(start: int64, increments: seq<Increment>, max: int64): int64 {
    if increments == [] then start
    else
      var current := After(start, increments[..|increments| - 1], max);
      if current < max then NewSize(current, increments[|increments| - 1], max) else current
  }

  function Pow2(k: nat): nat {
    if k == 0 then 1 else 2 * Pow2(k - 1)
  }

  /** Each expansion adds at least 9.91 percent unless it reaches the maximum. */
  lemma GrowthRate(current: int64, increment: Increment, max: int64)
    requires 1000 <= current < max && 100 * max < TWO_63
    ensures NewSize(current, increment, max) == max || 10000 * NewSize(current, increment, max) >= 10991 * current
  {
    hide NewSize;
    ExpansionIsExact(current, increment, max);
    ProductRange(current, increment, max);
    assert current * increment / 100 >= 10 * current / 100;
  }

  lemma {:induction false} NeverPastMax(start: int64, increments: seq<Increment>, max: int64)
    requires 1000 <= start <= max && 100 * max < TWO_63
    ensures start <= After(start, increments, max) <= max
  {
    if increments != [] {
      var current := After(start, increments[..|increments| - 1], max);
      NeverPastMax(start, increments[..|increments| - 1], max);
      if current < max {
        ExpansionIsExact(current, increments[|increments| - 1], max);
      }
    }
  }

  lemma {:induction false} AfterSplits(start: int64, xs: seq<Increment>, ys: seq<Increment>, max: int64)
    ensures After(start, xs + ys, max) == After(After(start, xs, max), ys, max)
  {
    if ys == [] {
      assert xs + ys == xs;
    } else {
      AfterSplits(start, xs, ys[..|ys| - 1], max);
      assert (xs + ys)[..|xs + ys| - 1] == xs + ys[..|ys| - 1];
    }
  }

  /** One more expansion: the maximum, or 9.91 percent more than before. */
  lemma OneMore(start: int64, increments: seq<Increment>, max: int64)
    requires 1000 <= start <= max && 100 * max < TWO_63 && increments != []
    ensures var before := After(start, increments[..|increments| - 1], max);
      After(start, increments, max) == max || 10000 * After(start, increments, max) >= 10991 * before
    ensures After(start, increments[..|increments| - 1], max) == max ==> After(start, increments, max) == max
  {
    var before := After(start, increments[..|increments| - 1], max);
    NeverPastMax(start, increments[..|increments| - 1], max);
    if before < max {
      GrowthRate(before, increments[|increments| - 1], max);
    }
  }

  /** Eight expansions double the request or reach the maximum. */
  lemma EightDouble(start: int64, increments: seq<Increment>, max: int64)
    requires 1000 <= start <= max && 100 * max < TWO_63 && |increments| == 8
    ensures After(start, increments, max) == max || After(start, increments, max) >= 2 * start
  {
    hide After;
    var a := seq(9, i requires 0 <= i <= 8 => After(start, increments[..i], max));
    forall i | 0 <= i < 8
      ensures a[i + 1] == max || (a[i] != max && 10000 * a[i + 1] >= 10991 * a[i])
    {
      assert increments[..i + 1][..i] == increments[..i];
      OneMore(start, increments[..i + 1], max);
    }
    AfterNothing(start, max);
    assert increments[..0] == [] && increments[..8] == increments;
    Compound(a, max);
  }

  lemma AfterNothing(start: int64, max: int64)
    ensures After(start, [], max) == start
  {
  }

  lemma Compound(a: seq<int>, max: int)
    requires |a| == 9 && a[0] >= 0
    requires forall i | 0 <= i < 8 :: a[i + 1] == max || (a[i] != max && 10000 * a[i + 1] >= 10991 * a[i])
    ensures a[8] == max || a[8] >= 2 * a[0]
  {
    if a[8] != max {
      assert a[7] != max && 10000 * a[8] >= 10991 * a[7];
      assert a[6] != max && 10000 * a[7] >= 10991 * a[6];
      assert a[5] != max && 10000 * a[6] >= 10991 * a[5];
      assert a[4] != max && 10000 * a[5] >= 10991 * a[4];
      assert a[3] != max && 10000 * a[4] >= 10991 * a[3];
      assert a[2] != max && 10000 * a[3] >= 10991 * a[2];
      assert a[1] != max && 10000 * a[2] >= 10991 * a[1];
      assert 10000 * a[1] >= 10991 * a[0];
    }
  }

  /** If the maximum is at most 2^k times the first size, 8k expansions reach it, whatever the
      increments. */
  lemma {:induction false} MaxIsReached(start: int64, increments: seq<Increment>, max: int64, k: nat)
    requires 1000 <= start <= max && 100 * max < TWO_63 && max <= Pow2(k) * start && |increments| >= 8 * k
    ensures After(start, increments, max) == max
    decreases k
  {
    hide After;
    NeverPastMax(start, increments, max);
    if k > 0 {
      var xs, ys := increments[..8], increments[8..];
      assert increments == xs + ys;
      AfterSplits(start, xs, ys, max);
      EightDouble(start, xs, max);
      NeverPastMax(start, xs, max);
      var mid := After(start, xs, max);
      if mid == max {
        NeverPastMax(mid, ys, max);
      } else {
        assert Pow2(k) * start == Pow2(k - 1) * (2 * start);
        Monotone(Pow2(k - 1), 2 * start, mid);
        MaxIsReached(mid, ys, max, k - 1);
      }
    }
  }

  lemma Monotone(c: nat, x: int, y: int)
    requires x <= y
    ensures c * x <= c * y
  {
  }

  // ---------------------------------------------------------------------------------------------
  // Any calls of Expand, with updates that may be refused
  // ---------------------------------------------------------------------------------------------

  datatype Call = Call(increment: Increment, updateOk: bool)

  /** The increments of the calls that wrote; the request is then `After` them. */
  function Written(start: int64, calls: seq<Call>, max: int64): seq<Increment> {
    if calls == [] then []
    else
      var n := |calls| - 1;
      var before := Written(start, calls[..n], max);
      before + if After(start, before, max) < max && calls[n].updateOk then [calls[n].increment] else []
  }

  /** One more call does what `Claim.Expand` promises: it writes, and then the new size, iff the request is
      below the maximum and the update is accepted. */
  lemma WrittenSnoc(start: int64, calls: seq<Call>, i: nat, max: int64)
    requires i < |calls|
    ensures var before, after := Written(start, calls[..i], max), Written(start, calls[..i + 1], max);
      var request := After(start, before, max);
      if request < max && calls[i].updateOk then
        |after| == |before| + 1 && After(start, after, max) == NewSize(request, calls[i].increment, max)
      else after == before
  {
    hide NewSize;
    var before := Written(start, calls[..i], max);
    assert calls[..i + 1][..i] == calls[..i];
    assert (before + [calls[i].increment])[..|before|] == before;
  }

  /** However many calls are made and whichever updates are refused, at most 8k of them write, if the
      maximum is at most 2^k times the first size. */
  lemma {:induction false} WritesAreBounded(start: int64, calls: seq<Call>, max: int64, k: nat)
    requires 1000 <= start <= max && 100 * max < TWO_63 && max <= Pow2(k) * start
    ensures |Written(start, calls, max)| <= 8 * k
  {
    hide After;
    if calls != [] {
      var before := Written(start, calls[..|calls| - 1], max);
      WritesAreBounded(start, calls[..|calls| - 1], max, k);
      if |before| == 8 * k {
        MaxIsReached(start, before, max, k);
      }
    }
  }

  /** Once the request is at the maximum no later call writes. */
  lemma {:induction false} MaxIsFinal(start: int64, calls: seq<Call>, later: seq<Call>, max: int64)
    requires After(start, Written(start, calls, max), max) >= max
    ensures Written(start, calls + later, max) == Written(start, calls, max)
  {
    hide After;
    if later == [] {
      assert calls + later == calls;
    } else {
      var n := |later| - 1;
      MaxIsFinal(start, calls, later[..n], max);
      assert (calls + later)[..|calls| + n] == calls + later[..n];
    }
  }
}
