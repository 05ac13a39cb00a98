/** Per-PVC configuration: annotations, policies and global defaults, and the decisions
    that read it (pkg/annotations/annotations.go, pkg/annotations/policy.go).
    Percentages are exact rationals, sizes are bytes, times and durations nanoseconds. */
module Annotations {
  import opened Kube
  import opened Text

  const ENABLED := "pvc-chonker.io/enabled"
  const GROUP := "pvc-chonker.io/group"
  const THRESHOLD := "pvc-chonker.io/threshold"
  const INODES_THRESHOLD := "pvc-chonker.io/inodes-threshold"
  const INCREASE := "pvc-chonker.io/increase"
  const MAX_SIZE := "pvc-chonker.io/max-size"
  const COOLDOWN := "pvc-chonker.io/cooldown"
  const MIN_SCALE_UP := "pvc-chonker.io/min-scale-up"
  const LAST_EXPANSION := "pvc-chonker.io/last-expansion"

  const SECOND := 1_000_000_000
  const DEFAULT_PERCENT := 80.0
  const DEFAULT_INCREASE := "10%"
  const DEFAULT_COOLDOWN := 15 * 60 * SECOND
  const GIB := 0x4000_0000
  const MAX_INT64 := 0x7fff_ffff_ffff_ffff
  const MIN_INT64 := -0x8000_0000_0000_0000

  /** The library parsers and printers, whose syntax is not modelled. */
  datatype Codec = Codec(
    parseFloat: string -> Option<real>,
    parseQuantity: string -> Option<int>,
    parseDuration: string -> Option<int>,
    parseTime: string -> Option<int>,
    printQuantity: int -> string,
    printDuration: int -> string,
    formatTime: int -> string)

  datatype GlobalConfig = GlobalConfig(
    threshold: real, inodesThreshold: real, increase: string, cooldown: int, minScaleUp: int, maxSize: int)

  datatype PvcConfig = PvcConfig(
    enabled: bool, threshold: real, inodesThreshold: real, increase: string,
    maxSize: int, cooldown: int, minScaleUp: int, lastExpansion: Option<int>)

  datatype PercentError = EmptyPercent | NoPercentSign | NoNumber | NotANumber | OutOfRange

  datatype ParseError =
    | NotEnabled
    | Disabled
    | InvalidThreshold(reason: PercentError)
    | InvalidInodesThreshold(reason: PercentError)
    | InvalidMaxSize
    | InvalidCooldown
    | InvalidMinScaleUp
    | InvalidLastExpansion

  function ParsePercentage(codec: Codec, s: string): (r: Result<real, PercentError>)
    ensures r.Ok? ==> 0.0 <= r.value <= 100.0
  {
    if s == "" then Err(EmptyPercent)
    else
      var t := TrimSpace(s);
      if !HasSuffix(t, '%') then Err(NoPercentSign)
      else if |t| == 1 then Err(NoNumber)
      else
        match codec.parseFloat(TrimSuffix(t, '%'))
        case None => Err(NotANumber)
        case Some(p) => if p < 0.0 || p > 100.0 then Err(OutOfRange) else Ok(p)
  }

  /** The percentage setting at `key`, or the fallback when the annotation is absent. */
  function PercentSetting(codec: Codec, notes: map<string, string>, key: string,
                          fallback: real): Result<real, PercentError>
  {
    if key in notes then ParsePercentage(codec, notes[key]) else Ok(fallback)
  }

  /** The setting at `key` under a library parser, or the fallback when it is absent. */
  function ParsedSetting(parse: string -> Option<int>, notes: map<string, string>, key: string,
                         fallback: int): Option<int>
  {
    if key in notes then parse(notes[key]) else Some(fallback)
  }

  function ParsePVCAnnotations(codec: Codec, notes: map<string, string>,
                               global: GlobalConfig): Result<PvcConfig, ParseError>
  {
    if ENABLED !in notes then Err(NotEnabled)
    else if ToLower(notes[ENABLED]) != "true" then Err(Disabled)
    else
      match PercentSetting(codec, notes, THRESHOLD, global.threshold)
      case Err(e) => Err(InvalidThreshold(e))
      case Ok(threshold) =>
        match PercentSetting(codec, notes, INODES_THRESHOLD, global.inodesThreshold)
        case Err(e) => Err(InvalidInodesThreshold(e))
        case Ok(inodesThreshold) =>
          var increase := if INCREASE in notes then notes[INCREASE] else global.increase;
          var maxSize := ParsedSetting(codec.parseQuantity, notes, MAX_SIZE, global.maxSize);
          if maxSize.None? then Err(InvalidMaxSize)
          else
            var cooldown := ParsedSetting(codec.parseDuration, notes, COOLDOWN, global.cooldown);
            if cooldown.None? then Err(InvalidCooldown)
            else
              var minScaleUp := ParsedSetting(codec.parseQuantity, notes, MIN_SCALE_UP, global.minScaleUp);
              if minScaleUp.None? then Err(InvalidMinScaleUp)
              else
                var lastExpansion := if LAST_EXPANSION in notes then codec.parseTime(notes[LAST_EXPANSION]) else None;
                if LAST_EXPANSION in notes && lastExpansion.None? then Err(InvalidLastExpansion)
                else Ok(PvcConfig(true, threshold, inodesThreshold, increase, maxSize.value,
                                  cooldown.value, minScaleUp.value, lastExpansion))
  }

  // ---- Policies ----

  /** A label selector: `matches` is its meaning when it converts without an error. */
  datatype Selector = Selector(valid: bool, matches: map<string, string> -> bool)

  /** The settings part of a PVCPolicy or a PVCGroup. */
  datatype Template = Template(
    enabled: Option<bool>, threshold: Option<string>, inodesThreshold: Option<string>, increase: Option<string>,
    maxSize: Option<int>, minScaleUp: Option<int>, cooldown: Option<int>)

  datatype Policy = Policy(name: string, selector: Selector, template: Template)

  datatype ResolveError = ListFailed | InvalidSelector | NotManaged

  function GetOr<T>(setting: Option<T>, fallback: T): T {
    if setting.Some? then setting.value else fallback
  }

  function ThresholdOr(codec: Codec, setting: Option<string>, fallback: real): real {
    if setting.Some? then
      match ParsePercentage(codec, setting.value)
      case Ok(p) => p
      case Err(_) => fallback
    else fallback
  }

  function BuildConfigFromPolicy(codec: Codec, template: Template, global: GlobalConfig): PvcConfig {
    PvcConfig(
      GetOr(template.enabled, true),
      ThresholdOr(codec, template.threshold, global.threshold),
      ThresholdOr(codec, template.inodesThreshold, global.inodesThreshold),
      GetOr(template.increase, global.increase),
      GetOr(template.maxSize, global.maxSize),
      GetOr(template.cooldown, global.cooldown),
      GetOr(template.minScaleUp, global.minScaleUp),
      None)
  }

  function FirstMatchingPolicy(policies: seq<Policy>, labels: map<string, string>): Result<Policy, ResolveError> {
    if policies == [] then Err(NotManaged)
    else if !policies[0].selector.valid then Err(InvalidSelector)
    else if policies[0].selector.matches(labels) then Ok(policies[0])
    else FirstMatchingPolicy(policies[1..], labels)
  }

  predicate ExplicitlyDisabled(notes: map<string, string>) {
    ENABLED in notes && ToLower(notes[ENABLED]) == "false"
  }

  /** `policies` lists the PVC's namespace; None when the list call fails. */
  function ResolvePVCConfig(codec: Codec, notes: map<string, string>, labels: map<string, string>,
                            policies: Option<seq<Policy>>, global: GlobalConfig): Result<PvcConfig, ResolveError>
  {
    if ExplicitlyDisabled(notes) then
      Ok(PvcConfig(false, global.threshold, global.inodesThreshold, global.increase,
                   global.maxSize, global.cooldown, global.minScaleUp, None))
    else
      match ParsePVCAnnotations(codec, notes, global)
      case Ok(config) => Ok(config)
      case Err(_) =>
        if policies.None? then Err(ListFailed)
        else
          var policy :- FirstMatchingPolicy(policies.value, labels);
          Ok(BuildConfigFromPolicy(codec, policy.template, global))
  }

  // ---- Decisions ----

  /** time.Since(last) < cooldown, read at `now`. */
  predicate IsInCooldown(config: PvcConfig, now: int) {
    config.lastExpansion.Some? && now - config.lastExpansion.value < config.cooldown
  }

  predicate ExceedsMaxSize(config: PvcConfig, size: int) {
    config.maxSize != 0 && size > config.maxSize
  }

  predicate IsPvcResizing(pvc: Pvc) {
    exists i | 0 <= i < |pvc.conditions| ::
      pvc.conditions[i].kind in {Resizing, FileSystemResizePending} && pvc.conditions[i].status == ConditionTrue
  }

  function WithLastExpansion(codec: Codec, notes: map<string, string>, now: int): map<string, string> {
    notes[LAST_EXPANSION := codec.formatTime(now)]
  }

  const YEAR_1 := -62_135_596_800 * SECOND
  const YEAR_9999 := 253_370_764_800 * SECOND

  /** RFC 3339 dates have years of four digits; local offsets need some room on either side. */
  predicate IsTime(t: int) {
    YEAR_1 <= t < YEAR_9999
  }

  /** Formatting a time as RFC 3339 (section 5.6) without fractions keeps its second. */
  ghost predicate TimesRoundTrip(codec: Codec) {
    forall t: int :: IsTime(t) ==> codec.parseTime(codec.formatTime(t)) == Some(t - t % SECOND)
  }

  predicate IsInt64(x: int) {
    MIN_INT64 <= x <= MAX_INT64
  }

  // ---- Sizes ----

  datatype SizeError = InvalidPercentage | InvalidSize

  /** Two's complement wrap-around of int64 arithmetic. */
  function Wrap64(x: int): int {
    (x - MIN_INT64) % 0x1_0000_0000_0000_0000 + MIN_INT64
  }

  /** Rounding toward zero. */
  function Truncate(x: real): int {
    if x >= 0.0 then x.Floor else -((-x).Floor)
  }

  /** int64(x): out of range the language leaves the result open; this is what amd64 gives. */
  function ToInt64(x: int): int {
    if MIN_INT64 <= x <= MAX_INT64 then x else MIN_INT64
  }

  /** Go's integer division, which truncates toward zero. */
  function GoDivide(a: int, b: int): int
    requires b > 0
  {
    if a >= 0 then a / b else -((-a) / b)
  }

  function PercentOf(current: int, percent: real): int {
    Truncate(current as real * percent / 100.0)
  }

  /** The configured increase in bytes, before any int64 effect. */
  function ExactIncrease(codec: Codec, increase: string, current: int): Result<int, SizeError> {
    var text := TrimSpace(increase);
    if HasSuffix(text, '%') then
      match codec.parseFloat(TrimSuffix(text, '%'))
      case None => Err(InvalidPercentage)
      case Some(percent) => Ok(PercentOf(current, percent))
    else
      match codec.parseQuantity(text)
      case None => Err(InvalidSize)
      case Some(size) => Ok(size)
  }

  /** The int64 value the code works with. */
  function IncreaseBytes(codec: Codec, increase: string, current: int): Result<int, SizeError> {
    var exact :- ExactIncrease(codec, increase, current);
    Ok(ToInt64(exact))
  }

  function Padded(bytes: int): int {
    Wrap64(Wrap64(bytes + GIB) - 1)
  }

  function RoundUpToGiB(bytes: int): int {
    Wrap64(GoDivide(Padded(bytes), GIB) * GIB)
  }

  function CalculateNewSize(codec: Codec, config: PvcConfig, current: int): Result<int, SizeError> {
    var increase :- IncreaseBytes(codec, config.increase, current);
    Ok(RoundUpToGiB(Wrap64(current + Max(increase, config.minScaleUp))))
  }

  /** NewGlobalConfig fills unset or unusable flags with the built-in defaults, so that
      whatever it returns can be expanded with. */
  method NewGlobalConfig(codec: Codec, threshold: real, inodesThreshold: real, increase: string,
                         cooldown: int, minScaleUp: int, maxSize: int) returns (g: GlobalConfig)
    requires ValidIncrease(codec, DEFAULT_INCREASE)
    ensures g.threshold > 0.0 && (threshold > 0.0 ==> g.threshold == threshold)
            && (threshold <= 0.0 ==> g.threshold == 80.0)
    ensures g.inodesThreshold > 0.0 && (inodesThreshold > 0.0 ==> g.inodesThreshold == inodesThreshold)
    ensures inodesThreshold <= 0.0 ==> g.inodesThreshold == 80.0
    ensures g.cooldown > 0 && (cooldown > 0 ==> g.cooldown == cooldown)
            && (cooldown <= 0 ==> g.cooldown == 900 * SECOND)
    ensures g.minScaleUp != 0 && (minScaleUp != 0 ==> g.minScaleUp == minScaleUp)
            && (minScaleUp == 0 ==> g.minScaleUp == GIB)
    ensures g.maxSize == maxSize
    ensures g.increase
            == if increase != "" && ValidIncrease(codec, increase) then TrimSpace(increase) else "10%"
    ensures forall current: int :: ExactIncrease(codec, g.increase, current).Ok?
  {
    var threshold', inodes', increase', cooldown', minScaleUp' :=
        threshold, inodesThreshold, increase, cooldown, minScaleUp;
    if threshold' <= 0.0 {
      threshold' := DEFAULT_PERCENT;
    }
    if inodes' <= 0.0 {
      inodes' := DEFAULT_PERCENT;
    }
    if increase' == "" {
      increase' := DEFAULT_INCREASE;
    } else {
      TrimSpaceIdempotent(increase);
      increase' := TrimSpace(increase');
      var parsed;
      if HasSuffix(increase', '%') {
        parsed := codec.parseFloat(TrimSuffix(increase', '%')).Some?;
      } else {
        parsed := codec.parseQuantity(increase').Some?;
      }
      if !parsed {
        increase' := DEFAULT_INCREASE;
      }
    }
    if cooldown' <= 0 {
      cooldown' := DEFAULT_COOLDOWN;
    }
    if minScaleUp' == 0 {
      minScaleUp' := GIB;
    }
    g := GlobalConfig(threshold', inodes', increase', cooldown', minScaleUp', maxSize);
  }

  /** The increase parses, as a percentage or as a size. */
  predicate ValidIncrease(codec: Codec, increase: string) {
    var text := TrimSpace(increase);
    if HasSuffix(text, '%') then codec.parseFloat(TrimSuffix(text, '%')).Some? else codec.parseQuantity(text).Some?
  }

  // ---- What resolution guarantees ----

  lemma KeysDistinct()
    ensures |{ENABLED, GROUP, THRESHOLD, INODES_THRESHOLD, INCREASE, MAX_SIZE, COOLDOWN, MIN_SCALE_UP,
              LAST_EXPANSION}| == 9
    ensures LAST_EXPANSION !in {ENABLED, GROUP, THRESHOLD, INODES_THRESHOLD, INCREASE, MAX_SIZE, COOLDOWN, MIN_SCALE_UP}
    ensures ENABLED !in {GROUP, THRESHOLD, INODES_THRESHOLD, INCREASE, MAX_SIZE, COOLDOWN, MIN_SCALE_UP}
    ensures GROUP !in {THRESHOLD, INODES_THRESHOLD, INCREASE, MAX_SIZE, COOLDOWN, MIN_SCALE_UP}
    ensures THRESHOLD !in {INODES_THRESHOLD, INCREASE, MAX_SIZE, COOLDOWN, MIN_SCALE_UP}
    ensures INODES_THRESHOLD !in {INCREASE, MAX_SIZE, COOLDOWN, MIN_SCALE_UP}
    ensures INCREASE !in {MAX_SIZE, COOLDOWN, MIN_SCALE_UP} && MAX_SIZE !in {COOLDOWN, MIN_SCALE_UP}
            && COOLDOWN != MIN_SCALE_UP
  {
    assert |ENABLED| == 22 && |GROUP| == 20 && |THRESHOLD| == 24 && |INODES_THRESHOLD| == 31;
    assert |MIN_SCALE_UP| == 27 && |LAST_EXPANSION| == 29;
    assert INCREASE[15] == 'i' && MAX_SIZE[15] == 'm' && COOLDOWN[15] == 'c';
  }
}
