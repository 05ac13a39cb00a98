/** What repeated expansion does to the size of a volume. */
module Growth {
  import opened Kube
  import opened Annotations
  import Text
  import Expander

  /** Above this, adding one GiB minus one no longer fits in int64. */
  const LIMIT := 0x8000_0000_0000_0000 - GIB

  predicate IsLeastGiBMultiple(size: int, bytes: int) {
    size % GIB == 0 && size >= bytes && size - GIB < bytes
  }

  /** The size asked for, before rounding and before any int64 effect. */
  function Wanted(codec: Codec, config: PvcConfig, current: int): Result<int, SizeError> {
    var increase :- ExactIncrease(codec, config.increase, current);
    Ok(current + Max(increase, config.minScaleUp))
  }

  predicate Fits(codec: Codec, config: PvcConfig, current: int) {
    var wanted := Wanted(codec, config, current);
    wanted.Ok? && wanted.value <= LIMIT
  }

  lemma PaddedValue(bytes: int)
    requires MIN_INT64 <= bytes <= MAX_INT64
    ensures Padded(bytes) == if bytes <= LIMIT then bytes + GIB - 1 else bytes + GIB - 1 - 0x1_0000_0000_0000_0000
  {
  }

  lemma DivideTowardZero(padded: int)
    ensures padded >= 0 ==> padded - GIB < GoDivide(padded, GIB) * GIB <= padded
    ensures padded < 0 ==> padded <= GoDivide(padded, GIB) * GIB <= 0
  {
  }

  lemma RoundedValue(bytes: int)
    requires MIN_INT64 <= bytes <= MAX_INT64
    ensures RoundUpToGiB(bytes) == GoDivide(Padded(bytes), GIB) * GIB
  {
    PaddedValue(bytes);
    DivideTowardZero(Padded(bytes));
  }

  lemma RoundingIsExact(bytes: int)
    requires -GIB < bytes <= LIMIT
    ensures IsLeastGiBMultiple(RoundUpToGiB(bytes), bytes)
  {
    RoundedValue(bytes);
    PaddedValue(bytes);
    DivideTowardZero(Padded(bytes));
    MultipleOfGiB(GoDivide(Padded(bytes), GIB));
  }

  lemma MultipleOfGiB(k: int)
    ensures (k * GIB) % GIB == 0
  {
  }

  // Past the limit the padding overflows and the result is negative or zero.
  lemma RoundingOverflows(bytes: int)
    requires LIMIT < bytes <= MAX_INT64 || MIN_INT64 <= bytes < 0
    ensures RoundUpToGiB(bytes) <= 0
  {
    RoundedValue(bytes);
    PaddedValue(bytes);
    DivideTowardZero(Padded(bytes));
  }

  // Division toward zero rounds a negative amount up by one GiB too many.
  lemma RoundingBelowZero(bytes: int)
    requires MIN_INT64 <= bytes <= -GIB
    ensures IsLeastGiBMultiple(RoundUpToGiB(bytes), bytes) <==> bytes % GIB == 1
  {
    RoundedValue(bytes);
    PaddedValue(bytes);
    var padded := Padded(bytes);
    var k := (-padded) / GIB;
    assert RoundUpToGiB(bytes) == (-k) * GIB;
    MultipleOfGiB(-k);
  }

  /** The new size is the least GiB multiple at or above what was asked for exactly when that
      is at most 2^63 - 2^30 and not, through a negative increase and minimum step, a GiB or
      more below zero. */
  lemma NewSizeIsExactIffFits(codec: Codec, config: PvcConfig, current: int)
    requires 0 <= current <= MAX_INT64 && MIN_INT64 <= config.minScaleUp <= MAX_INT64
    requires ExactIncrease(codec, config.increase, current).Ok?
    ensures CalculateNewSize(codec, config, current).Ok?
    ensures IsLeastGiBMultiple(CalculateNewSize(codec, config, current).value, Wanted(codec, config, current).value)
       <==> Fits(codec, config, current)
            && (Wanted(codec, config, current).value > -GIB || Wanted(codec, config, current).value % GIB == 1)
  {
    var exact := ExactIncrease(codec, config.increase, current).value;
    var step := Max(ToInt64(exact), config.minScaleUp);
    var bytes := Wrap64(current + step);
    if exact > MAX_INT64 {
      assert CalculateNewSize(codec, config, current).value <= MAX_INT64;
    } else {
      assert step == Max(exact, config.minScaleUp);
      if current + step <= -GIB {
        RoundingBelowZero(bytes);
      } else if current + step <= LIMIT {
        RoundingIsExact(bytes);
      } else {
        RoundingOverflows(bytes);
      }
    }
  }

  // ---- Every amount, overflow included ----

  /** The size in the amount the code adds up, before int64 wraps it around. */
  function Asked(codec: Codec, config: PvcConfig, current: int): Result<int, SizeError> {
    var increase :- IncreaseBytes(codec, config.increase, current);
    Ok(current + Max(increase, config.minScaleUp))
  }

  /** A capacity and a configuration as int64 holds them, with an increase that parses. */
  predicate Computes(codec: Codec, config: PvcConfig, current: int) {
    0 <= current <= MAX_INT64 && IsInt64(config.minScaleUp) && ExactIncrease(codec, config.increase, current).Ok?
  }

  /** What the padding makes of an amount: past the limit it wraps around. */
  function Effective(asked: int): int {
    if asked <= LIMIT then asked else asked - 0x1_0000_0000_0000_0000
  }

  function TowardZero(bytes: int): int {
    GoDivide(bytes, GIB) * GIB
  }

  lemma RoundedAmount(asked: int)
    requires MIN_INT64 <= asked <= 2 * MAX_INT64
    ensures var size := RoundUpToGiB(Wrap64(asked));
            && IsInt64(size) && size == TowardZero(Effective(asked) + GIB - 1)
            && (asked > LIMIT || asked <= -GIB ==> size <= 0)
            && (-GIB < asked <= LIMIT ==> IsLeastGiBMultiple(size, asked))
  {
    var bytes := Wrap64(asked);
    RoundedValue(bytes);
    PaddedValue(bytes);
    DivideTowardZero(Padded(bytes));
    if -GIB < asked <= LIMIT {
      RoundingIsExact(bytes);
    }
  }

  lemma SizeOf(codec: Codec, config: PvcConfig, current: int) returns (size: int, asked: int)
    requires Computes(codec, config, current)
    ensures CalculateNewSize(codec, config, current) == Ok(size) && Asked(codec, config, current) == Ok(asked)
    ensures MIN_INT64 <= asked <= 2 * MAX_INT64 && asked >= current + config.minScaleUp
    ensures IsInt64(size) && size == TowardZero(Effective(asked) + GIB - 1)
    ensures asked > LIMIT || asked <= -GIB ==> size <= 0
    ensures -GIB < asked <= LIMIT ==> IsLeastGiBMultiple(size, asked)
  {
    size := CalculateNewSize(codec, config, current).value;
    asked := Asked(codec, config, current).value;
    RoundedAmount(asked);
  }

  lemma LeastMultipleBelow(size: int, bytes: int, limit: int)
    requires IsLeastGiBMultiple(size, bytes)
    ensures size <= limit <==> bytes <= limit - limit % GIB
  {
    var k, m := size / GIB, limit / GIB;
    assert size == k * GIB && limit == m * GIB + limit % GIB;
  }

  /** An amount asked for that rounds to a size above the bound: after the padding's wrap-around
      it exceeds the largest GiB multiple within the bound, by most of a GiB if that is
      negative, because division rounds toward zero. */
  predicate Beyond(asked: int, bound: int) {
    Effective(asked) + (if bound >= 0 then 0 else GIB - 1) > bound - bound % GIB
  }

  lemma TowardZeroExceedsIff(x: int, bound: int)
    ensures TowardZero(x) > bound <==>
            if bound >= 0 then x >= bound - bound % GIB + GIB else x > bound - bound % GIB
  {
    var m := bound / GIB;
    assert bound == m * GIB + bound % GIB;
    if x >= 0 {
      var k := x / GIB;
      assert x == k * GIB + x % GIB;
    } else {
      var k := (-x) / GIB;
      assert -x == k * GIB + (-x) % GIB;
      assert TowardZero(x) == (-k) * GIB;
    }
  }

  /** The new size exceeds a bound exactly when the amount asked for is beyond it. */
  lemma SizeExceedsIff(codec: Codec, config: PvcConfig, current: int, bound: int)
    requires Computes(codec, config, current)
    ensures CalculateNewSize(codec, config, current).Ok? && Asked(codec, config, current).Ok?
    ensures CalculateNewSize(codec, config, current).value > bound <==>
              Beyond(Asked(codec, config, current).value, bound)
  {
    var _, asked := SizeOf(codec, config, current);
    TowardZeroExceedsIff(Effective(asked) + GIB - 1, bound);
  }

  /** Below a bound that is not negative, wrapping around is what keeps an amount from being
      beyond it. */
  lemma BeyondIff(asked: int, bound: nat)
    requires MIN_INT64 <= asked <= 2 * MAX_INT64
    ensures Beyond(asked, bound) <==> bound - bound % GIB < asked <= LIMIT
  {
  }

  /** An expansion grows the volume exactly when the padding does not overflow and more is
      asked for than the whole GiBs the volume has. */
  lemma NewSizeGrowsIff(codec: Codec, config: PvcConfig, current: int)
    requires Computes(codec, config, current)
    ensures CalculateNewSize(codec, config, current).Ok? && Asked(codec, config, current).Ok?
    ensures CalculateNewSize(codec, config, current).value > current <==>
            current - current % GIB < Asked(codec, config, current).value <= LIMIT
  {
    var _, asked := SizeOf(codec, config, current);
    SizeExceedsIff(codec, config, current, current);
    BeyondIff(asked, current);
  }

  /** Zero increase and zero minimum step, no overflow: 10 GiB stay 10 GiB. */
  lemma ZeroStepDoesNotGrow(codec: Codec, config: PvcConfig)
    requires config.increase == "0" && codec.parseQuantity("0") == Some(0) && config.minScaleUp == 0
    ensures CalculateNewSize(codec, config, 10 * GIB) == Ok(10 * GIB)
    ensures Fits(codec, config, 10 * GIB)
  {
    assert Text.TrimSpace("0") == "0";
    var size, asked := SizeOf(codec, config, 10 * GIB);
    MultipleOfGiB(10);
    LeastMultipleBelow(size, asked, 10 * GIB);
  }

  /** The largest increase, which quantity parsing caps at 2^63 - 1, overflows: a claim of
      1 GiB passes a max-size of 2 GiB with a size below zero. */
  lemma HugeStepPassesMaxSize(codec: Codec, config: PvcConfig, pvc: Pvc, now: int)
    requires config.increase == "8Ei" && codec.parseQuantity("8Ei") == Some(MAX_INT64)
    requires config.minScaleUp == GIB && config.maxSize == 2 * GIB && pvc.capacity == GIB && pvc.request == GIB
    ensures Expander.NewSize(codec, config, pvc).Ok? && Expander.NewSize(codec, config, pvc).value < 0
    ensures Expander.WithExpansion(codec, pvc, Expander.NewSize(codec, config, pvc).value, now).request < pvc.request
  {
    assert Text.TrimSpace("8Ei") == "8Ei";
    var _, asked := SizeOf(codec, config, GIB);
    assert asked == GIB + MAX_INT64;
  }

  /** An expansion passes max-size exactly when there is none or what was asked for is not
      beyond it: for a positive max-size, when it fits the largest GiB multiple within it or
      the padding overflows. */
  lemma WithinMaxSizeIff(codec: Codec, config: PvcConfig, pvc: Pvc)
    requires Computes(codec, config, pvc.capacity)
    ensures Asked(codec, config, pvc.capacity).Ok?
    ensures var asked := Asked(codec, config, pvc.capacity).value;
            && (Expander.NewSize(codec, config, pvc).Ok? <==> config.maxSize == 0 || !Beyond(asked, config.maxSize))
            && (config.maxSize > 0 ==>
                (Expander.NewSize(codec, config, pvc).Ok? <==>
                 asked <= config.maxSize - config.maxSize % GIB || asked > LIMIT))
    ensures Expander.NewSize(codec, config, pvc).Err? ==>
            Expander.NewSize(codec, config, pvc) == Err(Expander.OverLimit)
  {
    var _, asked := SizeOf(codec, config, pvc.capacity);
    SizeExceedsIff(codec, config, pvc.capacity, config.maxSize);
    if config.maxSize > 0 {
      BeyondIff(asked, config.maxSize);
    }
  }

  /** The expander computes from the capacity the volume has but overwrites the request, which
      the coordinator may have raised meanwhile. It lowers the request exactly when the padding
      overflows or the request is above every size that what was asked for rounds to. Without
      overflow and with no negative minimum step that takes a capacity that lags behind. */
  lemma ExpansionLowersIff(codec: Codec, config: PvcConfig, pvc: Pvc, now: int)
    requires Computes(codec, config, pvc.capacity) && pvc.request > 0
    requires Expander.NewSize(codec, config, pvc).Ok?
    ensures Asked(codec, config, pvc.capacity).Ok?
    ensures var sent := Expander.WithExpansion(codec, pvc, Expander.NewSize(codec, config, pvc).value, now);
            var asked := Asked(codec, config, pvc.capacity).value;
            && (sent.request < pvc.request <==>
                asked <= (pvc.request - 1) - (pvc.request - 1) % GIB || asked > LIMIT)
            && (sent.request < pvc.request && asked <= LIMIT && config.minScaleUp >= 0 ==> pvc.capacity < pvc.request)
  {
    var _, asked := SizeOf(codec, config, pvc.capacity);
    SizeExceedsIff(codec, config, pvc.capacity, pvc.request - 1);
    BeyondIff(asked, pvc.request - 1);
  }

  // ---- What an increase amounts to ----

  /** The integer nearest zero from x. */
  predicate CutsOff(n: int, x: real) {
    if x >= 0.0 then n as real <= x < n as real + 1.0 else n as real - 1.0 < x <= n as real
  }

  lemma PercentSignStays(digits: string)
    requires digits == "" || !Text.IsSpace(digits[0])
    ensures Text.TrimSpace(digits + "%") == digits + "%"
    ensures Text.HasSuffix(digits + "%", '%') && Text.TrimSuffix(digits + "%", '%') == digits
    ensures Text.IsTrimmed(digits + "%") && digits + "%" != ""
  {
    assert (digits + "%")[|digits|] == '%' && !Text.IsSpace('%');
    Text.TrimmedStays(digits + "%");
  }

  /** A number and a percent sign, with or without spaces around: that share of the size, cut
      off to whole bytes. */
  lemma PercentIncreaseIs(codec: Codec, left: string, digits: string, right: string, current: int)
    requires Text.AllSpace(left) && Text.AllSpace(right) && (digits == "" || !Text.IsSpace(digits[0]))
    ensures var increase := left + (digits + "%") + right;
            && (codec.parseFloat(digits).None? ==> ExactIncrease(codec, increase, current) == Err(InvalidPercentage))
            && (codec.parseFloat(digits).Some? ==> ExactIncrease(codec, increase, current).Ok?)
            && (codec.parseFloat(digits).Some? ==>
                CutsOff(ExactIncrease(codec, increase, current).value,
                        current as real * codec.parseFloat(digits).value / 100.0))
  {
    PercentSignStays(digits);
    Text.TrimSpaceStrips(left, digits + "%", right);
    if codec.parseFloat(digits).Some? {
      TruncateCutsOff(current as real * codec.parseFloat(digits).value / 100.0);
    }
  }

  lemma TruncateCutsOff(x: real)
    ensures CutsOff(Truncate(x), x)
  {
  }

  /** For a whole percentage of a size in bytes, integer division gives the amount. */
  lemma WholePercentIncreaseIs(codec: Codec, digits: string, current: nat, p: nat)
    requires (digits == "" || !Text.IsSpace(digits[0])) && codec.parseFloat(digits) == Some(p as real)
    ensures ExactIncrease(codec, digits + "%", current) == Ok(current * p / 100)
  {
    PercentSignStays(digits);
    TruncatedPercent(current, p);
  }

  /** Anything else is a quantity, whatever the size. */
  lemma QuantityIncreaseIs(codec: Codec, left: string, text: string, right: string, current: int)
    requires Text.AllSpace(left) && Text.AllSpace(right) && Text.IsTrimmed(text)
    requires text != "" && text[|text| - 1] != '%'
    ensures var increase := left + text + right;
            ExactIncrease(codec, increase, current)
            == if codec.parseQuantity(text).Some? then Ok(codec.parseQuantity(text).value) else Err(InvalidSize)
  {
    Text.TrimSpaceStrips(left, text, right);
  }

  /** An increase that does not parse is the error of the computation. */
  lemma BadIncreaseFails(codec: Codec, config: PvcConfig, current: int)
    requires ExactIncrease(codec, config.increase, current).Err?
    ensures CalculateNewSize(codec, config, current) == Err(ExactIncrease(codec, config.increase, current).error)
  {
  }

  /** The amount asked for is the size and the larger of increase and minimum step; an increase
      beyond int64 reads as the least int64 and leaves the step. */
  lemma AskedIs(codec: Codec, config: PvcConfig, current: int)
    requires Computes(codec, config, current)
    ensures Asked(codec, config, current).Ok?
    ensures var exact, asked :=
            ExactIncrease(codec, config.increase, current).value, Asked(codec, config, current).value;
            && (exact > MAX_INT64 || exact <= config.minScaleUp ==> asked == current + config.minScaleUp)
            && (config.minScaleUp <= exact <= MAX_INT64 ==> asked == current + exact)
  {
  }

  lemma NewSizeByShare(codec: Codec, config: PvcConfig, current: nat, share: nat)
    requires ExactIncrease(codec, config.increase, current) == Ok(share)
    requires current <= MAX_INT64 && IsInt64(config.minScaleUp)
    requires share <= MAX_INT64 && current + Max(share, config.minScaleUp) <= LIMIT
    ensures CalculateNewSize(codec, config, current).Ok?
    ensures var size := CalculateNewSize(codec, config, current).value;
            var amount := if share < config.minScaleUp then config.minScaleUp else share;
            size % GIB == 0 && current + amount <= size < current + amount + GIB
  {
    var _, _ := SizeOf(codec, config, current);
  }

  /** By a whole percentage, without overflow, the new size is the least GiB multiple at or above
      the size with its share or the minimum step added, whichever is more. */
  lemma NewSizeByPercent(codec: Codec, config: PvcConfig, digits: string, current: nat, p: nat, share: nat)
    requires config.increase == digits + "%" && (digits == "" || !Text.IsSpace(digits[0]))
    requires codec.parseFloat(digits) == Some(p as real) && share == current * p / 100
    requires current <= MAX_INT64 && IsInt64(config.minScaleUp)
    requires share <= MAX_INT64 && current + Max(share, config.minScaleUp) <= LIMIT
    ensures CalculateNewSize(codec, config, current).Ok?
    ensures var size := CalculateNewSize(codec, config, current).value;
            var amount := if share < config.minScaleUp then config.minScaleUp else share;
            size % GIB == 0 && current + amount <= size < current + amount + GIB
  {
    WholePercentIncreaseIs(codec, digits, current, p);
    NewSizeByShare(codec, config, current, share);
  }

  /** 10 % of 100 GiB more. */
  lemma TenPercentMore(codec: Codec, config: PvcConfig)
    requires config.increase == "10%" && codec.parseFloat("10") == Some(10.0) && config.minScaleUp == GIB
    ensures CalculateNewSize(codec, config, 100 * GIB) == Ok(110 * GIB)
  {
    assert "10" + "%" == "10%";
    assert !Text.IsSpace('1');
    NewSizeByPercent(codec, config, "10", 100 * GIB, 10, 10 * GIB);
  }

  // ---- Larger volumes ----

  lemma FloorShift(x: real, k: int)
    ensures (x + k as real).Floor == x.Floor + k
  {
  }

  lemma {:induction false} TruncateMonotone(x: real, y: real)
    requires x <= y
    ensures Truncate(x) <= Truncate(y)
  {
    assert x.Floor as real <= x < x.Floor as real + 1.0;
  }

  lemma PercentMonotone(a: int, b: int, percent: real)
    requires 0 <= a <= b && percent >= 0.0
    ensures PercentOf(a, percent) <= PercentOf(b, percent)
  {
    var x, y := a as real, b as real;
    assert (y - x) * percent >= 0.0;
    assert x * percent <= y * percent;
    TruncateMonotone(x * percent / 100.0, y * percent / 100.0);
  }

  lemma NegativePercent(a: int, percent: real)
    requires 0 <= a && percent < 0.0
    ensures PercentOf(a, percent) == -((a as real * -percent / 100.0).Floor) <= 0
  {
    var x := a as real * percent / 100.0;
    assert a as real * percent <= 0.0;
    assert -x == a as real * -percent / 100.0;
  }

  lemma ShareOfDifference(a: int, b: int, q: real)
    requires 0 <= a <= b && 0.0 <= q <= 100.0
    ensures b as real * q / 100.0 <= a as real * q / 100.0 + (b - a) as real
  {
    var d := (b - a) as real;
    assert b as real * q == a as real * q + d * q;
    assert d * (100.0 - q) >= 0.0;
  }

  lemma FloorMonotone(x: real, y: real)
    requires x <= y
    ensures x.Floor <= y.Floor
  {
  }

  /** Losing at most all of it, a larger volume keeps at least as much. */
  lemma KeptMonotone(a: int, b: int, percent: real)
    requires 0 <= a <= b && -100.0 <= percent < 0.0
    ensures a + PercentOf(a, percent) <= b + PercentOf(b, percent)
  {
    NegativePercent(a, percent);
    NegativePercent(b, percent);
    var x, y := a as real * -percent / 100.0, b as real * -percent / 100.0;
    ShareOfDifference(a, b, -percent);
    FloorMonotone(y, x + (b - a) as real);
    FloorShift(x, b - a);
  }

  /** The configured increase takes away no more than the whole volume. */
  predicate Steady(codec: Codec, config: PvcConfig) {
    var text := Text.TrimSpace(config.increase);
    config.minScaleUp >= 0
    || (Text.HasSuffix(text, '%') ==> GetOr(codec.parseFloat(Text.TrimSuffix(text, '%')), 0.0) >= -100.0)
  }

  lemma ExactMonotone(codec: Codec, config: PvcConfig, a: int, b: int)
    requires 0 <= a <= b && Steady(codec, config) && ExactIncrease(codec, config.increase, a).Ok?
    ensures ExactIncrease(codec, config.increase, b).Ok?
    ensures var x, y := ExactIncrease(codec, config.increase, a).value, ExactIncrease(codec, config.increase, b).value;
            a + Max(x, config.minScaleUp) <= b + Max(y, config.minScaleUp) && (x <= y || (x <= 0 && y <= 0))
  {
    var text := Text.TrimSpace(config.increase);
    if Text.HasSuffix(text, '%') {
      var percent := codec.parseFloat(Text.TrimSuffix(text, '%')).value;
      if percent >= 0.0 {
        PercentMonotone(a, b, percent);
      } else {
        NegativePercent(a, percent);
        NegativePercent(b, percent);
        if percent >= -100.0 {
          KeptMonotone(a, b, percent);
        }
      }
    }
  }

  /** The increase at `current` is an int64. */
  predicate IncreaseFits(codec: Codec, config: PvcConfig, current: int) {
    var exact := ExactIncrease(codec, config.increase, current);
    exact.Ok? && exact.value <= MAX_INT64
  }

  lemma AskedMonotone(codec: Codec, config: PvcConfig, a: int, b: int)
    requires Computes(codec, config, a) && a <= b <= MAX_INT64
    requires Steady(codec, config) && IncreaseFits(codec, config, b)
    ensures Computes(codec, config, b) && Asked(codec, config, a).Ok? && Asked(codec, config, b).Ok?
    ensures Asked(codec, config, a).value <= Asked(codec, config, b).value
  {
    ExactMonotone(codec, config, a, b);
  }

  lemma TowardZeroMonotone(x: int, y: int)
    requires x <= y
    ensures TowardZero(x) <= TowardZero(y)
  {
    assert x >= 0 ==> x / GIB <= y / GIB;
    assert y < 0 ==> (-y) / GIB <= (-x) / GIB;
  }

  /** New sizes are ordered as the wrapped amounts are. So a larger volume, asking for no less as
      every steady int64 increase does, never gets a smaller new size unless the padding
      overflows for it alone; then it gets one of zero or less, where the smaller one got a
      positive one if anything was asked for. */
  lemma NewSizeOrder(codec: Codec, config: PvcConfig, a: int, b: int)
    requires Computes(codec, config, a) && Computes(codec, config, b)
    ensures CalculateNewSize(codec, config, a).Ok? && CalculateNewSize(codec, config, b).Ok?
    ensures Asked(codec, config, a).Ok? && Asked(codec, config, b).Ok?
    ensures var asked, asked' := Asked(codec, config, a).value, Asked(codec, config, b).value;
            var size, size' := CalculateNewSize(codec, config, a).value, CalculateNewSize(codec, config, b).value;
            && (Effective(asked) <= Effective(asked') ==> size <= size')
            && (a <= b && Steady(codec, config) && IncreaseFits(codec, config, b) ==> asked <= asked')
            && (asked <= asked' && (asked > LIMIT || asked' <= LIMIT) ==> size <= size')
            && (0 < asked <= LIMIT < asked' ==> size' <= 0 < size)
  {
    var _, asked := SizeOf(codec, config, a);
    var _, asked' := SizeOf(codec, config, b);
    if a <= b && Steady(codec, config) && IncreaseFits(codec, config, b) {
      AskedMonotone(codec, config, a, b);
    }
    if Effective(asked) <= Effective(asked') {
      TowardZeroMonotone(Effective(asked) + GIB - 1, Effective(asked') + GIB - 1);
    }
  }

  /** An increase below -100 % is not steady: 1 GiB would get no size, 3 GiB a smaller one. */
  lemma SteepDecreaseShrinks(codec: Codec, config: PvcConfig)
    requires config.increase == "-200%" && codec.parseFloat("-200") == Some(-200.0)
    requires config.minScaleUp == -100 * GIB
    ensures CalculateNewSize(codec, config, GIB) == Ok(0)
    ensures CalculateNewSize(codec, config, 3 * GIB) == Ok(-2 * GIB)
  {
    assert Text.TrimSpace("-200%") == "-200%" && Text.TrimSuffix("-200%", '%') == "-200";
    var _, _ := SizeOf(codec, config, GIB);
    var _, _ := SizeOf(codec, config, 3 * GIB);
  }

  lemma BeyondMonotone(asked: int, asked': int, bound: int)
    requires asked <= asked' && Beyond(asked, bound) && (asked > LIMIT || asked' <= LIMIT)
    ensures Beyond(asked', bound)
  {
  }

  /** Once max-size refuses an expansion, it refuses one at the same or a larger capacity exactly
      while the amount asked for stays beyond it. With a steady int64 increase it does so until
      the padding overflows, and past a positive max-size not any longer. */
  lemma RefusalIsStickyIff(codec: Codec, config: PvcConfig, a: Pvc, b: Pvc)
    requires Computes(codec, config, a.capacity) && a.capacity <= b.capacity <= MAX_INT64
    requires Expander.NewSize(codec, config, a) == Err(Expander.OverLimit)
    ensures Asked(codec, config, a.capacity).Ok? && Asked(codec, config, b.capacity).Ok?
    ensures var asked, asked' := Asked(codec, config, a.capacity).value, Asked(codec, config, b.capacity).value;
            var refused := Expander.NewSize(codec, config, b) == Err(Expander.OverLimit);
            var steady := Steady(codec, config) && IncreaseFits(codec, config, b.capacity);
            && (refused <==> Beyond(asked', config.maxSize))
            && (steady && (asked' <= LIMIT || asked > LIMIT) ==> refused)
            && (steady && config.maxSize > 0 ==> (refused <==> asked' <= LIMIT))
  {
    WithinMaxSizeIff(codec, config, a);
    WithinMaxSizeIff(codec, config, b);
    var asked, asked' := Asked(codec, config, a.capacity).value, Asked(codec, config, b.capacity).value;
    if Steady(codec, config) && IncreaseFits(codec, config, b.capacity) {
      AskedMonotone(codec, config, a.capacity, b.capacity);
      if asked' <= LIMIT || asked > LIMIT {
        BeyondMonotone(asked, asked', config.maxSize);
      }
    }
  }

  // ---- Chains of expansions, each resize completing before the next ----

  /** sizes[i] is the size the volume gets when it is expanded at sizes[i - 1]; only a resize to
      a positive size completes. */
  predicate Expands(codec: Codec, config: PvcConfig, sizes: seq<int>, i: nat)
    requires 1 <= i < |sizes|
  {
    sizes[i] > 0 && CalculateNewSize(codec, config, sizes[i - 1]) == Ok(sizes[i])
  }

  predicate Chain(codec: Codec, config: PvcConfig, sizes: seq<int>) {
    && sizes != [] && 0 <= sizes[0] <= MAX_INT64 && IsInt64(config.minScaleUp)
    && forall i :: 1 <= i < |sizes| ==> Expands(codec, config, sizes, i)
  }

  ghost predicate Accepted(config: PvcConfig, sizes: seq<int>) {
    forall i :: 1 <= i < |sizes| ==> !ExceedsMaxSize(config, sizes[i])
  }

  ghost predicate Climbing(sizes: seq<int>) {
    forall i :: 1 <= i < |sizes| ==> sizes[i] % GIB == 0 && sizes[i - 1] < sizes[i]
  }

  lemma {:induction false} ClimbingGainsGiBs(sizes: seq<int>)
    requires Climbing(sizes) && |sizes| >= 2
    ensures sizes[|sizes| - 1] > sizes[0] + (|sizes| - 2) * GIB
  {
    var n := |sizes| - 1;
    if n > 1 {
      ClimbingGainsGiBs(sizes[..n]);
      assert sizes[n - 1] % GIB == 0 && sizes[n] % GIB == 0 && sizes[n - 1] < sizes[n];
    }
  }

  lemma ChainStep(codec: Codec, config: PvcConfig, sizes: seq<int>, i: nat) returns (asked: int)
    requires Chain(codec, config, sizes) && 1 <= i < |sizes|
    ensures Computes(codec, config, sizes[i - 1]) && Asked(codec, config, sizes[i - 1]) == Ok(asked)
    ensures IsLeastGiBMultiple(sizes[i], asked) && asked >= sizes[i - 1] + config.minScaleUp
  {
    assert Expands(codec, config, sizes, i);
    assert i > 1 ==> Expands(codec, config, sizes, i - 1);
    var _, amount := SizeOf(codec, config, sizes[i - 1]);
    asked := amount;
  }

  lemma ChainClimbs(codec: Codec, config: PvcConfig, sizes: seq<int>)
    requires Chain(codec, config, sizes) && config.minScaleUp > 0
    ensures Climbing(sizes)
  {
    forall i | 1 <= i < |sizes|
      ensures sizes[i] % GIB == 0 && sizes[i - 1] < sizes[i]
    {
      var _ := ChainStep(codec, config, sizes, i);
    }
  }

  /** A volume of size c0 with max-size M expands at most 1 + (M - c0) / GiB times, and not at
      all from above M. */
  lemma ExpansionsAreBounded(codec: Codec, config: PvcConfig, sizes: seq<int>)
    requires Chain(codec, config, sizes) && Accepted(config, sizes)
    requires config.minScaleUp > 0 && config.maxSize > 0
    ensures |sizes| - 1 <= if sizes[0] <= config.maxSize then 1 + (config.maxSize - sizes[0]) / GIB else 0
  {
    if |sizes| >= 2 {
      ChainClimbs(codec, config, sizes);
      ClimbingGainsGiBs(sizes);
      var steps := |sizes| - 2;
      assert steps * GIB <= config.maxSize - sizes[0];
      assert steps <= (config.maxSize - sizes[0]) / GIB;
    }
  }

  /** Each step of a chain by p percent reaches what is asked for and less than a GiB more. */
  lemma ChainStepByPercent(codec: Codec, config: PvcConfig, sizes: seq<int>, p: nat, i: nat)
    requires Chain(codec, config, sizes) && WholePercent(codec, config.increase, p) && 1 <= i < |sizes|
    requires IncreaseFits(codec, config, sizes[i - 1])
    ensures sizes[i - 1] >= 0 && sizes[i] % GIB == 0
    ensures var asked := sizes[i - 1] + Max(sizes[i - 1] * p / 100, config.minScaleUp);
            asked <= sizes[i] < asked + GIB
  {
    var asked := ChainStep(codec, config, sizes, i);
    TruncatedPercent(sizes[i - 1], p);
  }

  function Pow(base: nat, n: nat): nat {
    if n == 0 then 1 else base * Pow(base, n - 1)
  }

  /** The increase is a whole percentage p. */
  predicate WholePercent(codec: Codec, increase: string, p: nat) {
    var text := Text.TrimSpace(increase);
    Text.HasSuffix(text, '%') && codec.parseFloat(Text.TrimSuffix(text, '%')) == Some(p as real)
  }

  lemma TruncatedPercent(current: nat, p: nat)
    ensures PercentOf(current, p as real) == current * p / 100
  {
    var product := current * p;
    assert current as real * p as real == product as real;
    assert product == product / 100 * 100 + product % 100;
    assert (product / 100) as real <= product as real / 100.0 < (product / 100) as real + 1.0;
  }

  // A percentage of a GiB multiple that truncates to a GiB multiple loses nothing.
  lemma AlignedPercentIsExact(k: nat, p: nat, m: int, lost: nat)
    requires (k * GIB) * p == m * GIB * 100 + lost && lost < 100
    ensures lost == 0
  {
    var z := k * p - m * 100;
    assert (k * GIB) * p == (k * p) * GIB;
    assert lost == z * GIB;
  }

  // What truncation loses, rounding up to a GiB gives back.
  lemma RoundingCoversTruncation(current: nat, p: nat, size: int)
    requires current % GIB == 0 && size % GIB == 0 && size >= current + current * p / 100
    ensures size * 100 >= current * (100 + p)
  {
    var product := current * p;
    var whole, lost := product / 100, product % 100;
    assert current * (100 + p) == current * 100 + product;
    if size == current + whole {
      var k, t := current / GIB, size / GIB;
      assert current == k * GIB && size == t * GIB;
      AlignedPercentIsExact(k, p, t - k, lost);
    }
  }

  ghost predicate Compounding(sizes: seq<int>, p: nat) {
    forall i :: 1 <= i < |sizes| ==> sizes[i] * 100 >= sizes[i - 1] * (100 + p)
  }

  lemma {:induction false} CompoundingGrows(sizes: seq<int>, p: nat)
    requires Compounding(sizes, p) && sizes != []
    ensures sizes[|sizes| - 1] * Pow(100, |sizes| - 1) >= sizes[0] * Pow(100 + p, |sizes| - 1)
  {
    var n := |sizes| - 1;
    if n > 0 {
      CompoundingGrows(sizes[..n], p);
      ScaleStep(sizes[n], sizes[n - 1], sizes[0], Pow(100, n - 1), Pow(100 + p, n - 1), 100 + p);
    }
  }

  lemma ScaleStep(last: int, previous: int, first: int, x: nat, y: nat, q: nat)
    requires last * 100 >= previous * q && previous * x >= first * y
    ensures last * (100 * x) >= first * (q * y)
  {
    ScaleInequality(last * 100, previous * q, x);
    ScaleInequality(previous * x, first * y, q);
    assert previous * q * x == previous * x * q;
    assert first * y * q == first * (q * y);
  }

  lemma AskedCoversPercent(codec: Codec, config: PvcConfig, current: nat, asked: int, p: nat)
    requires WholePercent(codec, config.increase, p) && Asked(codec, config, current) == Ok(asked)
    requires IncreaseFits(codec, config, current)
    ensures asked >= current + current * p / 100
  {
    TruncatedPercent(current, p);
  }

  lemma ChainCompounds(codec: Codec, config: PvcConfig, sizes: seq<int>, p: nat, i: nat)
    requires Chain(codec, config, sizes) && WholePercent(codec, config.increase, p)
    requires sizes[0] % GIB == 0 && 1 <= i < |sizes| && IncreaseFits(codec, config, sizes[i - 1])
    ensures sizes[i] * 100 >= sizes[i - 1] * (100 + p)
  {
    var asked := ChainStep(codec, config, sizes, i);
    if i > 1 {
      var _ := ChainStep(codec, config, sizes, i - 1);
    }
    AskedCoversPercent(codec, config, sizes[i - 1], asked, p);
    RoundingCoversTruncation(sizes[i - 1], p, sizes[i]);
  }

  /** From a GiB-aligned size c0, n expansions by p percent reach at least
      c0 * ((100 + p) / 100)^n, although every step truncates to whole bytes, as long as the
      increases are int64 values. */
  lemma GrowthCompounds(codec: Codec, config: PvcConfig, sizes: seq<int>, p: nat)
    requires Chain(codec, config, sizes) && WholePercent(codec, config.increase, p) && sizes[0] % GIB == 0
    requires forall i :: 0 <= i < |sizes| - 1 ==> IncreaseFits(codec, config, sizes[i])
    ensures sizes[|sizes| - 1] * Pow(100, |sizes| - 1) >= sizes[0] * Pow(100 + p, |sizes| - 1)
  {
    forall i: nat | 1 <= i < |sizes|
      ensures sizes[i] * 100 >= sizes[i - 1] * (100 + p)
    {
      ChainCompounds(codec, config, sizes, p, i);
    }
    CompoundingGrows(sizes, p);
  }

  lemma ScaleInequality(a: int, b: int, k: nat)
    requires a >= b
    ensures a * k >= b * k
  {
  }
}
