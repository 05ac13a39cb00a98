/** One PVC through the expander (internal/controller/persistentvolumeclaim_controller.go). */
module Expander {
  import opened Kube
  import opened Annotations
  import opened Storage
  import opened ApiServer
  import Kubelet
  import Text

  datatype Failure = BadIncrease(error: SizeError) | OverLimit | UpdateRefused

  /** The one way each reconcile of a PVC ends. */
  datatype Exit =
    | Unmanaged
    | NotEligible
    | ClassRefused
    | AlreadyResizing
    | CoolingDown
    | NoMetrics
    | BelowThreshold
    | Failed(failure: Failure)
    | Expanded(size: int)

  /** The Prometheus counters a reconcile touches. */
  datatype Counters = Counters(
    classRefused: nat, resizing: nat, cooling: nat, noMetrics: nat,
    thresholdReached: nat, limitReached: nat, expansionFailed: nat, succeeded: nat, written: nat)

  predicate IsPVCEligible(pvc: Pvc) {
    && (pvc.volumeMode.Some? ==> pvc.volumeMode.value == Filesystem)
    && pvc.phase == Bound
  }

  predicate ThresholdReached(config: PvcConfig, vm: Kubelet.VolumeMetrics) {
    vm.usagePercent >= config.threshold || (vm.inodesTotal > 0 && vm.inodesPercent >= config.inodesThreshold)
  }

  /** The guards after the storage class, in order; None lets the expansion proceed. */
  function LateGuards(config: PvcConfig, pvc: Pvc, now: int, vm: Option<Kubelet.VolumeMetrics>): Option<Exit> {
    if IsPvcResizing(pvc) then Some(AlreadyResizing)
    else if IsInCooldown(config, now) then Some(CoolingDown)
    else if vm.None? then Some(NoMetrics)
    else if !ThresholdReached(config, vm.value) then Some(BelowThreshold)
    else None
  }

  /** The size an expansion asks for, computed from the status capacity. */
  function NewSize(codec: Codec, config: PvcConfig, pvc: Pvc): Result<int, Failure> {
    match CalculateNewSize(codec, config, pvc.capacity)
    case Err(e) => Err(BadIncrease(e))
    case Ok(size) => if ExceedsMaxSize(config, size) then Err(OverLimit) else Ok(size)
  }

  /** The object an expansion writes: the copied PVC with a new request and a fresh stamp. */
  function WithExpansion(codec: Codec, pvc: Pvc, size: int, now: int): Pvc {
    pvc.(request := size, annotations := WithLastExpansion(codec, pvc.annotations, now))
  }

  function Bump(c: Counters, exit: Exit): Counters {
    match exit
    case ClassRefused => c.(classRefused := c.classRefused + 1)
    case AlreadyResizing => c.(resizing := c.resizing + 1)
    case CoolingDown => c.(cooling := c.cooling + 1)
    case NoMetrics => c.(noMetrics := c.noMetrics + 1)
    case Failed(_) => c.(expansionFailed := c.expansionFailed + 1)
    case Expanded(_) => c.(succeeded := c.succeeded + 1)
    case _ => c
  }

  /** Everything one reconcile adds to the counters, given how it ended. */
  function Settle(c: Counters, exit: Exit, dryRun: bool): Counters {
    var expanding := if exit.Failed? || exit.Expanded? then 1 else 0;
    var limited := if exit == Failed(OverLimit) then 1 else 0;
    var wrote := if exit.Expanded? && !dryRun then 1 else 0;
    Bump(c.(thresholdReached := c.thresholdReached + expanding,
            limitReached := c.limitReached + limited,
            written := c.written + wrote), exit)
  }

  /** The class the PVC names exists and allows expansion. */
  predicate ClassAllows(classes: Classes, pvc: Pvc) {
    pvc.className.Some? && pvc.className.value in classes && Expandable(classes[pvc.className.value])
  }

  /** How an expansion ends; `accepted` is what becomes of an update that is sent. */
  function EndOfExpansion(codec: Codec, config: PvcConfig, pvc: Pvc, dryRun: bool, accepted: bool): Exit {
    match NewSize(codec, config, pvc)
    case Err(failure) => Failed(failure)
    case Ok(size) => if dryRun || accepted then Expanded(size) else Failed(UpdateRefused)
  }

  /** How a reconcile that passed the storage class ends. */
  function EndAfterClass(codec: Codec, config: PvcConfig, pvc: Pvc, now: int, vm: Option<Kubelet.VolumeMetrics>,
                         dryRun: bool, accepted: bool): Exit
  {
    match LateGuards(config, pvc, now, vm)
    case Some(guard) => guard
    case None => EndOfExpansion(codec, config, pvc, dryRun, accepted)
  }

  /** How it may end, whatever the API server answers. */
  predicate EndsAfterClass(codec: Codec, config: PvcConfig, pvc: Pvc, now: int, vm: Option<Kubelet.VolumeMetrics>,
                           dryRun: bool, exit: Exit)
  {
    || exit == EndAfterClass(codec, config, pvc, now, vm, dryRun, true)
    || exit == EndAfterClass(codec, config, pvc, now, vm, dryRun, false)
  }

  /** What the API server's answers and the clock contribute to one reconcile: the policies, the
      metrics, the times of the cooldown check and of the stamp, whether the Get of a storage
      class fails, and whether the update is refused. */
  datatype Surroundings = Surroundings(
    policies: Option<seq<Policy>>, metrics: Kubelet.Records, now: int, later: int, classFails: bool, refused: bool)

  function Resolved(codec: Codec, global: GlobalConfig, pvc: Pvc, around: Surroundings): Result<PvcConfig, ResolveError>
  {
    ResolvePVCConfig(codec, pvc.annotations, pvc.labels, around.policies, global)
  }

  /** How the reconcile of a PVC ends; `cached` when its class's answer is, `current` when the
      API server still has the version read. */
  function ExitOf(codec: Codec, global: GlobalConfig, classes: Classes, key: Key, pvc: Pvc, around: Surroundings,
                  dryRun: bool, cached: bool, current: bool): Exit
  {
    ExitGiven(codec, Resolved(codec, global, pvc, around), classes, key, pvc, around, dryRun, cached, current)
  }

  /** Given what the PVC resolves to. */
  function ExitGiven(codec: Codec, resolved: Result<PvcConfig, ResolveError>, classes: Classes, key: Key, pvc: Pvc,
                     around: Surroundings, dryRun: bool, cached: bool, current: bool): Exit
  {
    if resolved.Err? then Unmanaged
    else if !IsPVCEligible(pvc) then NotEligible
    else if !ClassAllows(classes, pvc) || (!cached && around.classFails) then ClassRefused
    else
      EndAfterClass(codec, resolved.value, pvc, around.now, Lookup(around.metrics, Kubelet.CacheKey(key)), dryRun,
                    current && !around.refused)
  }

  // ---- What the guards mean ----

  /** A resize of the volume or of its file system is under way. */
  ghost predicate ResizeUnderWay(pvc: Pvc) {
    exists c ::
      c in pvc.conditions && c.status == ConditionTrue && (c.kind == Resizing || c.kind == FileSystemResizePending)
  }

  lemma ResizingMeans(pvc: Pvc)
    ensures IsPvcResizing(pvc) <==> ResizeUnderWay(pvc)
  {
    if ResizeUnderWay(pvc) {
      var c :| c in pvc.conditions && c.status == ConditionTrue
          && (c.kind == Resizing || c.kind == FileSystemResizePending);
      var i :| 0 <= i < |pvc.conditions| && pvc.conditions[i] == c;
    }
  }

  predicate Attempted(exit: Exit) {
    exit.Expanded? || exit.Failed?
  }

  predicate PassedClass(exit: Exit) {
    !exit.Unmanaged? && !exit.NotEligible? && !exit.ClassRefused?
  }

  /** What each guard after the class says of the claim, and what passing all of them says. */
  lemma LateGuardsMean(codec: Codec, config: PvcConfig, pvc: Pvc, now: int, vm: Option<Kubelet.VolumeMetrics>,
                       dryRun: bool, accepted: bool)
    ensures var exit := EndAfterClass(codec, config, pvc, now, vm, dryRun, accepted);
            var cooling := config.lastExpansion.Some? && now < config.lastExpansion.value + config.cooldown;
            var full := vm.Some? && vm.value.usagePercent >= config.threshold;
            var crowded := vm.Some? && vm.value.inodesTotal > 0 && vm.value.inodesPercent >= config.inodesThreshold;
            && PassedClass(exit)
            && (exit.AlreadyResizing? <==> ResizeUnderWay(pvc))
            && (exit.CoolingDown? <==> !ResizeUnderWay(pvc) && cooling)
            && (exit.NoMetrics? <==> !ResizeUnderWay(pvc) && !cooling && vm.None?)
            && (Attempted(exit) <==> !ResizeUnderWay(pvc) && !cooling && (full || crowded))
  {
    ResizingMeans(pvc);
  }

  /** Only a Bound claim in file-system mode, of a class that says it allows expansion, gets past
      the class guard; a claim that does is refused only for an answer that was not cached and
      could not be fetched. */
  lemma EarlyGuardsMean(codec: Codec, resolved: Result<PvcConfig, ResolveError>, classes: Classes, key: Key, pvc: Pvc,
                        around: Surroundings, dryRun: bool, cached: bool, current: bool)
    ensures var exit := ExitGiven(codec, resolved, classes, key, pvc, around, dryRun, cached, current);
            var eligible := pvc.phase == Bound && (pvc.volumeMode.None? || pvc.volumeMode == Some(Filesystem));
            var allowed := pvc.className.Some? && pvc.className.value in classes
                           && classes[pvc.className.value].allowExpansion == Some(true);
            && (exit.Unmanaged? <==> resolved.Err?)
            && (exit.NotEligible? <==> resolved.Ok? && !eligible)
            && (exit.ClassRefused? <==> resolved.Ok? && eligible && (!allowed || (!cached && around.classFails)))
  {
    if resolved.Ok? {
      LateGuardsMean(codec, resolved.value, pvc, around.now, Lookup(around.metrics, Kubelet.CacheKey(key)), dryRun,
                     current && !around.refused);
    }
  }

  lemma PercentAtLeastIff(part: int, whole: int, percent: real)
    requires whole > 0
    ensures part as real / whole as real * 100.0 >= percent <==> MakesUp(part, whole, percent)
  {
    var w, q := whole as real, part as real / whole as real;
    assert q * w == part as real;
    assert q * 100.0 >= percent ==> (q * 100.0 - percent) * w >= 0.0;
    assert q * 100.0 < percent ==> (percent - q * 100.0) * w > 0.0;
    assert (q * 100.0 - percent) * w == q * w * 100.0 - percent * w;
  }

  predicate MakesUp(part: int, whole: int, percent: real) {
    part as real * 100.0 >= percent * whole as real
  }

  lemma RecordReachesIff(config: PvcConfig, capacity: int, available: int, inodes: int, inodesUsed: int)
    requires capacity > 0
    ensures var vm := Kubelet.VolumeMetrics(capacity, available, 0, 0.0, inodes, inodesUsed, 0, 0.0);
            ThresholdReached(config, Kubelet.WithPercentages(vm)) <==>
            MakesUp(capacity - available, capacity, config.threshold)
            || (inodes > 0 && MakesUp(inodesUsed, inodes, config.inodesThreshold))
  {
    PercentAtLeastIff(capacity - available, capacity, config.threshold);
    if inodes > 0 {
      PercentAtLeastIff(inodesUsed, inodes, config.inodesThreshold);
    }
  }

  /** On a consistent report the bulk path reaches the threshold exactly when the last bytes
      used, or the last inodes used where inodes are reported, make up the percentage. */
  lemma ThresholdInBytes(config: PvcConfig, lines: seq<Kubelet.Sample>, pvc: Key)
    requires Kubelet.NoSlashes(lines) && '/' !in pvc.namespace && Kubelet.Named(pvc)
    requires Kubelet.Consistent(lines, pvc)
    ensures Kubelet.Bulk(lines, pvc).Some?
    ensures var capacity := Kubelet.ScanLatest(lines, pvc, Kubelet.Capacity);
            var available := Kubelet.ScanLatest(lines, pvc, Kubelet.Available);
            var inodes := Kubelet.ScanLatest(lines, pvc, Kubelet.InodesTotal);
            var inodesUsed := Kubelet.ScanLatest(lines, pvc, Kubelet.InodesUsed);
            ThresholdReached(config, Kubelet.Bulk(lines, pvc).value) <==>
              || MakesUp(capacity - available, capacity, config.threshold)
              || (inodes > 0 && MakesUp(inodesUsed, inodes, config.inodesThreshold))
  {
    Kubelet.BulkRecord(lines, pvc);
    Kubelet.UnmentionedScansToZero(lines, pvc, Kubelet.Capacity);
    RecordReachesIff(config, Kubelet.ScanLatest(lines, pvc, Kubelet.Capacity),
                     Kubelet.ScanLatest(lines, pvc, Kubelet.Available),
                     Kubelet.ScanLatest(lines, pvc, Kubelet.InodesTotal),
                     Kubelet.ScanLatest(lines, pvc, Kubelet.InodesUsed));
  }

  /** What "false" resolves to. */
  function DisabledConfig(global: GlobalConfig): PvcConfig {
    PvcConfig(false, global.threshold, global.inodesThreshold, global.increase,
              global.maxSize, global.cooldown, global.minScaleUp, None)
  }

  /** The reconcile may end with this PVC expanded. */
  ghost predicate CanExpand(codec: Codec, config: PvcConfig, pvc: Pvc, now: int, vm: Option<Kubelet.VolumeMetrics>,
                            dryRun: bool)
  {
    exists size :: EndsAfterClass(codec, config, pvc, now, vm, dryRun, Expanded(size))
  }

  /** A PVC annotated "false" that is eligible and of an expandable class is expanded exactly
      when it is not resizing, has metrics at a global threshold, and the global settings give
      a size within the global maximum, whatever its other annotations and its stamp say. */
  lemma DisabledPvcExpandsIff(codec: Codec, global: GlobalConfig, pvc: Pvc, around: Surroundings,
                              vm: Option<Kubelet.VolumeMetrics>, dryRun: bool)
    requires ExplicitlyDisabled(pvc.annotations)
    ensures Resolved(codec, global, pvc, around) == Ok(DisabledConfig(global))
    ensures CanExpand(codec, DisabledConfig(global), pvc, around.now, vm, dryRun) <==>
            && !ResizeUnderWay(pvc)
            && vm.Some?
            && (vm.value.usagePercent >= global.threshold
                || (vm.value.inodesTotal > 0 && vm.value.inodesPercent >= global.inodesThreshold))
            && NewSize(codec, DisabledConfig(global), pvc).Ok?
  {
    var size := NewSize(codec, DisabledConfig(global), pvc);
    ResizingMeans(pvc);
    if size.Ok? && LateGuards(DisabledConfig(global), pvc, around.now, vm).None? {
      assert EndsAfterClass(codec, DisabledConfig(global), pvc, around.now, vm, dryRun, Expanded(size.value));
    }
  }

  /** Annotated "False", stamped this very second and 90 % full, 10 GiB become 11 GiB. */
  lemma DisabledPvcExpandsInCooldown(codec: Codec, global: GlobalConfig, pvc: Pvc, around: Surroundings,
                                     vm: Kubelet.VolumeMetrics, dryRun: bool)
    requires pvc.annotations == map[ENABLED := "False", LAST_EXPANSION := codec.formatTime(around.now)]
    requires pvc.conditions == [] && pvc.capacity == 10 * GIB && vm.usagePercent == 90.0
    requires global.threshold == 80.0 && global.minScaleUp == GIB && global.maxSize == 0
    requires global.increase == "1Gi" && codec.parseQuantity("1Gi") == Some(GIB)
    ensures Resolved(codec, global, pvc, around) == Ok(DisabledConfig(global))
    ensures EndsAfterClass(codec, DisabledConfig(global), pvc, around.now, Some(vm), dryRun, Expanded(11 * GIB))
  {
    StampedAndDisabled(pvc.annotations, codec.formatTime(around.now));
    OneGiBMore(codec, DisabledConfig(global));
  }

  /** A claim that an empty policy manages, stamped this very second and 90 % full, is expanded
      from 10 GiB to 11 GiB: the stamp is not read. */
  lemma PolicyManagedExpandsInCooldown(codec: Codec, global: GlobalConfig, pvc: Pvc, around: Surroundings,
                                       policy: Policy, vm: Kubelet.VolumeMetrics, dryRun: bool)
    requires pvc.annotations == map[LAST_EXPANSION := codec.formatTime(around.now)]
    requires around.policies == Some([policy]) && policy.selector.valid && policy.selector.matches(pvc.labels)
    requires policy.template == Template(None, None, None, None, None, None, None)
    requires pvc.conditions == [] && pvc.capacity == 10 * GIB && vm.usagePercent == 90.0
    requires global.threshold == 80.0 && global.minScaleUp == GIB && global.maxSize == 0
    requires global.increase == "1Gi" && codec.parseQuantity("1Gi") == Some(GIB)
    ensures Resolved(codec, global, pvc, around) == Ok(BuildConfigFromPolicy(codec, policy.template, global))
    ensures EndsAfterClass(codec, BuildConfigFromPolicy(codec, policy.template, global), pvc, around.now, Some(vm),
                           dryRun, Expanded(11 * GIB))
  {
    KeysDistinct();
    assert ENABLED !in pvc.annotations;
    OneGiBMore(codec, BuildConfigFromPolicy(codec, policy.template, global));
  }

  lemma EnabledDoesNotEnd(codec: Codec, config: PvcConfig, b: bool, pvc: Pvc, now: int,
                          vm: Option<Kubelet.VolumeMetrics>, dryRun: bool, accepted: bool)
    ensures EndAfterClass(codec, config.(enabled := b), pvc, now, vm, dryRun, accepted)
         == EndAfterClass(codec, config, pvc, now, vm, dryRun, accepted)
  {
    assert LateGuards(config.(enabled := b), pvc, now, vm) == LateGuards(config, pvc, now, vm);
    assert NewSize(codec, config.(enabled := b), pvc) == NewSize(codec, config, pvc);
  }

  /** Nothing reads whether a configuration is enabled: a policy that says no expands the claims
      it manages like one that says yes. */
  lemma EnabledIsNotRead(codec: Codec, config: PvcConfig, b: bool, pvc: Pvc, now: int,
                         vm: Option<Kubelet.VolumeMetrics>, dryRun: bool, exit: Exit)
    ensures EndsAfterClass(codec, config.(enabled := b), pvc, now, vm, dryRun, exit) <==>
            EndsAfterClass(codec, config, pvc, now, vm, dryRun, exit)
  {
    EnabledDoesNotEnd(codec, config, b, pvc, now, vm, dryRun, true);
    EnabledDoesNotEnd(codec, config, b, pvc, now, vm, dryRun, false);
  }

  /** Whatever a policy says of being enabled, the claims it manages are expanded alike. */
  lemma PolicySaysNoExpandsAlike(codec: Codec, global: GlobalConfig, t: Template, b: bool, pvc: Pvc, now: int,
                                 vm: Option<Kubelet.VolumeMetrics>, dryRun: bool)
    ensures BuildConfigFromPolicy(codec, t.(enabled := Some(b)), global).enabled == b
    ensures CanExpand(codec, BuildConfigFromPolicy(codec, t.(enabled := Some(b)), global), pvc, now, vm, dryRun) <==>
            CanExpand(codec, BuildConfigFromPolicy(codec, t.(enabled := None), global), pvc, now, vm, dryRun)
  {
    var yes := BuildConfigFromPolicy(codec, t.(enabled := None), global);
    var no := BuildConfigFromPolicy(codec, t.(enabled := Some(b)), global);
    assert no == yes.(enabled := b);
    forall size
      ensures EndsAfterClass(codec, no, pvc, now, vm, dryRun, Expanded(size)) <==>
              EndsAfterClass(codec, yes, pvc, now, vm, dryRun, Expanded(size))
    {
      EnabledIsNotRead(codec, yes, b, pvc, now, vm, dryRun, Expanded(size));
    }
  }

  lemma StampedAndDisabled(notes: map<string, string>, stamp: string)
    requires notes == map[ENABLED := "False", LAST_EXPANSION := stamp]
    ensures ExplicitlyDisabled(notes)
  {
    KeysDistinct();
    assert notes[ENABLED] == "False";
    assert Text.ToLower("False") == "false";
  }

  lemma OneGiBMore(codec: Codec, config: PvcConfig)
    requires config.increase == "1Gi" && codec.parseQuantity("1Gi") == Some(GIB) && config.minScaleUp == GIB
    ensures CalculateNewSize(codec, config, 10 * GIB) == Ok(11 * GIB)
  {
    assert Text.TrimSpace("1Gi") == "1Gi";
  }

  /** The policies of each namespace; a namespace is missing when its list call fails. */
  type Policies = map<string, seq<Policy>>

  predicate IsManaged(codec: Codec, global: GlobalConfig, item: Listed, policies: Policies) {
    ResolvePVCConfig(codec, item.pvc.annotations, item.pvc.labels, Lookup(policies, item.key.namespace), global).Ok?
  }

  /** The snapshot entries a cycle hands to its workers. */
  function Managed(codec: Codec, global: GlobalConfig, listed: seq<Listed>, policies: Policies): seq<Listed> {
    if listed == [] then []
    else
      var last := listed[|listed| - 1];
      Managed(codec, global, listed[..|listed| - 1], policies)
      + if IsManaged(codec, global, last, policies) then [last] else []
  }

  ghost predicate DistinctKeys(items: seq<Listed>) {
    forall i, j :: 0 <= i < j < |items| ==> items[i].key != items[j].key
  }

  /** The workers get every listed PVC that resolves, once, and no other. */
  lemma {:induction false} ManagedIsExact(codec: Codec, global: GlobalConfig, listed: seq<Listed>, policies: Policies)
    requires DistinctKeys(listed)
    ensures forall x :: x in Managed(codec, global, listed, policies) <==>
              x in listed
              && ResolvePVCConfig(codec, x.pvc.annotations, x.pvc.labels, Lookup(policies, x.key.namespace), global).Ok?
    ensures DistinctKeys(Managed(codec, global, listed, policies))
  {
    if listed != [] {
      var front, last := listed[..|listed| - 1], listed[|listed| - 1];
      ManagedIsExact(codec, global, front, policies);
      assert forall x :: x in listed <==> x in front || x == last;
      assert forall x :: x in front ==> x.key != last.key;
    }
  }

  /** What the end of one reconcile left of the object it was about: the snapshot with a new
      request and stamp after an expansion, and otherwise what was there. */
  ghost predicate Left(codec: Codec, dryRun: bool, job: Listed, exit: Exit, stampedAt: int, before: Pvcs, after: Pvcs) {
    if exit.Expanded? && !dryRun then
      && job.key in before && before[job.key].version == job.pvc.version
      && job.key in after
      && after[job.key] == job.pvc.(version := after[job.key].version, request := exit.size,
                                    annotations := job.pvc.annotations[LAST_EXPANSION := codec.formatTime(stampedAt)])
    else Lookup(after, job.key) == Lookup(before, job.key)
  }

  /** What the API server and the clock answer each reconcile of a cycle. */
  type World = Key -> Surroundings

  /** The end of one reconcile of a cycle, whose metrics are those the cycle fetched. */
  predicate Fits(codec: Codec, global: GlobalConfig, classes: Classes, world: World, metrics: Kubelet.Records,
                 dryRun: bool, job: Listed, exit: Exit, before: Pvcs)
  {
    var around := world(job.key).(metrics := metrics);
    var current := IsCurrent(before, job.key, job.pvc);
    || exit == ExitOf(codec, global, classes, job.key, job.pvc, around, dryRun, true, current)
    || exit == ExitOf(codec, global, classes, job.key, job.pvc, around, dryRun, false, current)
  }

  /** Each of the first n jobs ended as it had to, nothing else was touched, and each of these is
      left as its end says. */
  ghost predicate LeftAll(codec: Codec, dryRun: bool, world: World, jobs: seq<Listed>, exits: seq<Exit>,
                          before: Pvcs, after: Pvcs)
    requires |exits| <= |jobs|
  {
    && (forall i :: 0 <= i < |exits| ==>
        Left(codec, dryRun, jobs[i], exits[i], world(jobs[i].key).later, before, after))
    && (forall key :: key !in ListedKeys(jobs[..|exits|]) ==> Lookup(after, key) == Lookup(before, key))
  }

  ghost predicate FitAll(codec: Codec, global: GlobalConfig, classes: Classes, world: World, metrics: Kubelet.Records,
                         dryRun: bool, jobs: seq<Listed>, exits: seq<Exit>, before: Pvcs)
    requires |exits| <= |jobs|
  {
    forall i :: 0 <= i < |exits| ==> Fits(codec, global, classes, world, metrics, dryRun, jobs[i], exits[i], before)
  }

  lemma FitOneMore(codec: Codec, global: GlobalConfig, classes: Classes, world: World, metrics: Kubelet.Records,
                   dryRun: bool, jobs: seq<Listed>, exits: seq<Exit>, exit: Exit, before: Pvcs)
    requires |exits| < |jobs| && FitAll(codec, global, classes, world, metrics, dryRun, jobs, exits, before)
    requires Fits(codec, global, classes, world, metrics, dryRun, jobs[|exits|], exit, before)
    ensures FitAll(codec, global, classes, world, metrics, dryRun, jobs, exits + [exit], before)
  {
  }

  function SettleAll(c: Counters, exits: seq<Exit>, dryRun: bool): Counters {
    if exits == [] then c else Settle(SettleAll(c, exits[..|exits| - 1], dryRun), exits[|exits| - 1], dryRun)
  }

  lemma {:induction false} KeyNotListedBefore(jobs: seq<Listed>, n: nat)
    requires DistinctKeys(jobs) && n < |jobs|
    ensures forall i :: n <= i < |jobs| ==> jobs[i].key !in ListedKeys(jobs[..n])
    ensures ListedKeys(jobs[..n + 1]) == ListedKeys(jobs[..n]) + {jobs[n].key}
  {
    assert jobs[..n + 1][..n] == jobs[..n];
    if n > 0 {
      KeyNotListedBefore(jobs, n - 1);
    }
  }

  /** One more reconcile touches its own object only. */
  lemma LeftOneMore(codec: Codec, dryRun: bool, world: World, jobs: seq<Listed>, exits: seq<Exit>, exit: Exit,
                    before: Pvcs, now: Pvcs, after: Pvcs)
    requires DistinctKeys(jobs) && |exits| < |jobs| && LeftAll(codec, dryRun, world, jobs, exits, before, now)
    requires Left(codec, dryRun, jobs[|exits|], exit, world(jobs[|exits|].key).later, now, after)
    requires forall key :: key != jobs[|exits|].key ==> Lookup(after, key) == Lookup(now, key)
    ensures LeftAll(codec, dryRun, world, jobs, exits + [exit], before, after)
  {
    var n := |exits|;
    KeyNotListedBefore(jobs, n);
    assert Lookup(now, jobs[n].key) == Lookup(before, jobs[n].key);
    forall i | 0 <= i < n
      ensures Left(codec, dryRun, jobs[i], exits[i], world(jobs[i].key).later, before, after)
    {
      assert Lookup(after, jobs[i].key) == Lookup(now, jobs[i].key);
      assert Left(codec, dryRun, jobs[i], exits[i], world(jobs[i].key).later, before, now);
    }
  }

  /** Whether the next job's copy is current is not for the jobs before it to say. */
  lemma CurrencyIsUntouched(codec: Codec, dryRun: bool, world: World, jobs: seq<Listed>, exits: seq<Exit>,
                            before: Pvcs, now: Pvcs)
    requires DistinctKeys(jobs) && |exits| < |jobs| && LeftAll(codec, dryRun, world, jobs, exits, before, now)
    ensures IsCurrent(now, jobs[|exits|].key, jobs[|exits|].pvc) <==>
              IsCurrent(before, jobs[|exits|].key, jobs[|exits|].pvc)
  {
    KeyNotListedBefore(jobs, |exits|);
    assert Lookup(now, jobs[|exits|].key) == Lookup(before, jobs[|exits|].key);
  }

  /** Each end of a reconcile moves its own counter by one; an attempt also counts a threshold
      crossing, one over the limit the limit, and an expansion outside dry run a write. */
  lemma SettleMoves(c: Counters, exit: Exit, dryRun: bool)
    ensures var d := Settle(c, exit, dryRun);
            && d.classRefused == c.classRefused + (if exit.ClassRefused? then 1 else 0)
            && d.resizing == c.resizing + (if exit.AlreadyResizing? then 1 else 0)
            && d.cooling == c.cooling + (if exit.CoolingDown? then 1 else 0)
            && d.noMetrics == c.noMetrics + (if exit.NoMetrics? then 1 else 0)
            && d.thresholdReached == c.thresholdReached + (if exit.Expanded? || exit.Failed? then 1 else 0)
            && d.limitReached == c.limitReached + (if exit == Failed(OverLimit) then 1 else 0)
            && d.expansionFailed == c.expansionFailed + (if exit.Failed? then 1 else 0)
            && d.succeeded == c.succeeded + (if exit.Expanded? then 1 else 0)
            && d.written == c.written + (if exit.Expanded? && !dryRun then 1 else 0)
  {
  }

  /** Over a whole cycle the counters account for every exit: what crossed the threshold either
      expanded or failed, and outside dry run the writes are the expansions. */
  lemma {:induction false} SettleAllBalances(c: Counters, exits: seq<Exit>, dryRun: bool)
    ensures var d := SettleAll(c, exits, dryRun);
            && d.thresholdReached - c.thresholdReached
               == (d.succeeded - c.succeeded) + (d.expansionFailed - c.expansionFailed)
            && 0 <= d.limitReached - c.limitReached <= d.expansionFailed - c.expansionFailed
            && d.written - c.written == if dryRun then 0 else d.succeeded - c.succeeded
  {
    if exits != [] {
      SettleAllBalances(c, exits[..|exits| - 1], dryRun);
    }
  }

  class PersistentVolumeClaimReconciler {
    const codec: Codec
    const global: GlobalConfig
    const dryRun: bool
    const storage: StorageClassCache
    const api: Server
    var counters: Counters

    constructor (codec: Codec, global: GlobalConfig, dryRun: bool, storage: StorageClassCache, api: Server)
      ensures this.codec == codec && this.global == global && this.dryRun == dryRun
      ensures this.storage == storage && this.api == api && counters == Counters(0, 0, 0, 0, 0, 0, 0, 0, 0)
    {
      this.codec, this.global, this.dryRun, this.storage, this.api := codec, global, dryRun, storage, api;
      counters := Counters(0, 0, 0, 0, 0, 0, 0, 0, 0);
    }

    /** One cycle with its reconciles one after the other. The list call and the metrics fetch
        may fail; then nothing but the cache is touched. */
    method ReconcileAll(listed: Option<seq<Listed>>, policies: Policies, classes: Classes,
                        metrics: Option<Kubelet.Records>, world: World)
      returns (ghost exits: seq<Exit>)
      requires listed.Some? ==> DistinctKeys(listed.value)
      modifies this, storage, api
      ensures listed.None? || metrics.None? ==>
                api.pvcs == old(api.pvcs) && counters == old(counters) && storage.flags == map[]
      ensures listed.Some? && metrics.Some? ==>
                var jobs := Managed(codec, global, listed.value, policies);
                && |exits| == |jobs|
                && FitAll(codec, global, classes, world, metrics.value, dryRun, jobs, exits, old(api.pvcs))
                && LeftAll(codec, dryRun, world, jobs, exits, old(api.pvcs), api.pvcs)
                && counters == SettleAll(old(counters), exits, dryRun)
    {
      exits := [];
      storage.Clear();
      if listed.None? {
        return;
      }
      var jobs := SelectManaged(listed.value, policies);
      ManagedIsExact(codec, global, listed.value, policies);
      if metrics.None? {
        return;
      }
      for i := 0 to |jobs|
        invariant |exits| == i
        invariant FitAll(codec, global, classes, world, metrics.value, dryRun, jobs, exits, old(api.pvcs))
        invariant LeftAll(codec, dryRun, world, jobs, exits, old(api.pvcs), api.pvcs)
        invariant counters == SettleAll(old(counters), exits, dryRun)
        invariant Coherent(storage.flags, storage.fsTypes, classes, {})
      {
        var exit := ReconcileOne(jobs[i], classes, metrics.value, world, jobs, exits, old(api.pvcs));
        assert (exits + [exit])[..i] == exits;
        FitOneMore(codec, global, classes, world, metrics.value, dryRun, jobs, exits, exit, old(api.pvcs));
        exits := exits + [exit];
      }
    }

    /** Policies and clock are read afresh. */
    method ReconcileOne(job: Listed, classes: Classes, metrics: Kubelet.Records, world: World,
                        ghost jobs: seq<Listed>, ghost exits: seq<Exit>, ghost before: Pvcs) returns (exit: Exit)
      requires Coherent(storage.flags, storage.fsTypes, classes, {})
      requires DistinctKeys(jobs) && |exits| < |jobs| && job == jobs[|exits|]
      requires LeftAll(codec, dryRun, world, jobs, exits, before, api.pvcs)
      modifies this, storage, api
      ensures Coherent(storage.flags, storage.fsTypes, classes, {})
      ensures Fits(codec, global, classes, world, metrics, dryRun, job, exit, before)
      ensures LeftAll(codec, dryRun, world, jobs, exits + [exit], before, api.pvcs)
      ensures counters == Settle(old(counters), exit, dryRun)
    {
      CurrencyIsUntouched(codec, dryRun, world, jobs, exits, before, api.pvcs);
      exit := ReconcilePVC(job.key, job.pvc, classes, world(job.key).(metrics := metrics));
      LeftOneMore(codec, dryRun, world, jobs, exits, exit, before, old(api.pvcs), api.pvcs);
    }

    /** The managed PVCs of a listing, in list order. */
    method SelectManaged(listed: seq<Listed>, policies: Policies) returns (managed: seq<Listed>)
      ensures managed == Managed(codec, global, listed, policies)
    {
      managed := [];
      for i := 0 to |listed|
        invariant managed == Managed(codec, global, listed[..i], policies)
      {
        assert listed[..i + 1][..i] == listed[..i];
        if IsManaged(codec, global, listed[i], policies) {
          managed := managed + [listed[i]];
        }
      }
      assert listed[..|listed|] == listed;
    }

    /** A client Get of a storage class: it may fail. */
    method GetClass(classes: Classes, name: string, fails: bool) returns (class_: Option<StorageClass>)
      ensures class_ == if !fails && name in classes then Some(classes[name]) else None
    {
      class_ := if fails then None else Lookup(classes, name);
    }

    /** Read-through: the answer is the class's own, except that a failed lookup answers no and
        leaves the cache as it was. */
    method IsStorageClassExpandable(classes: Classes, pvc: Pvc, fails: bool) returns (expandable: bool, failed: bool)
      requires Coherent(storage.flags, storage.fsTypes, classes, {})
      modifies storage
      ensures Coherent(storage.flags, storage.fsTypes, classes, {})
      ensures failed <==> pvc.className.Some? && pvc.className.value !in old(storage.flags)
                          && (fails || pvc.className.value !in classes)
      ensures pvc.className.Some? && !failed ==>
                && pvc.className.value in classes && pvc.className.value in storage.fsTypes
                && (expandable <==> classes[pvc.className.value].allowExpansion == Some(true))
      ensures pvc.className.None? || failed ==>
                !expandable && storage.flags == old(storage.flags) && storage.fsTypes == old(storage.fsTypes)
    {
      if pvc.className.None? {
        return false, false;
      }
      var name := pvc.className.value;
      var answer, hit := storage.Get(name);
      if hit {
        return answer, false;
      }
      var fetched := GetClass(classes, name, fails);
      if fetched.None? {
        return false, true;
      }
      expandable := Expandable(fetched.value);
      storage.Set(name, expandable);
      storage.SetFsType(name, FsType(fetched.value));
      failed := false;
    }

    /** The file-system type for the log: the class's own once it is cached. */
    method GetFilesystemType(classes: Classes, pvc: Pvc) returns (fsType: string)
      requires Coherent(storage.flags, storage.fsTypes, classes, {})
      ensures pvc.className.None? ==> fsType == "unknown"
      ensures pvc.className.Some? ==>
                fsType == if pvc.className.value in storage.fsTypes then FsType(classes[pvc.className.value])
                  else DEFAULT_FS_TYPE
    {
      if pvc.className.None? {
        return "unknown";
      }
      var cached, hit := storage.GetFsType(pvc.className.value);
      fsType := if hit then cached else DEFAULT_FS_TYPE;
    }

    /** Sends at most one object, the PVC itself, and only outside dry run. */
    method ExpandPVC(key: Key, pvc: Pvc, config: PvcConfig, now: int, refused: bool) returns (r: Result<int, Failure>)
      modifies this, api
      ensures match NewSize(codec, config, pvc)
              case Err(failure) => r == Err(failure)
              case Ok(size) =>
                r == if dryRun || (IsCurrent(old(api.pvcs), key, pvc) && !refused) then Ok(size) else Err(UpdateRefused)
      ensures r.Ok? && !dryRun ==> Wrote(key, pvc, r.value, now, old(api.pvcs), old(api.revision))
      ensures r.Err? || dryRun ==> api.pvcs == old(api.pvcs) && api.revision == old(api.revision)
      ensures counters ==
                old(counters).(limitReached := old(counters).limitReached + if r == Err(OverLimit) then 1 else 0,
                               written := old(counters).written + if r.Ok? && !dryRun then 1 else 0)
    {
      var computed := CalculateNewSize(codec, config, pvc.capacity);
      if computed.Err? {
        return Err(BadIncrease(computed.error));
      }
      var size := computed.value;
      if ExceedsMaxSize(config, size) {
        counters := counters.(limitReached := counters.limitReached + 1);
        return Err(OverLimit);
      }
      if dryRun {
        return Ok(size);
      }
      var copy := pvc.(request := size);
      copy := copy.(annotations := WithLastExpansion(codec, copy.annotations, now));
      var ok := api.Update(key, copy, refused);
      if !ok {
        return Err(UpdateRefused);
      }
      counters := counters.(written := counters.written + 1);
      return Ok(size);
    }

    /** The server took this PVC's new size and stamp, and nothing else changed. */
    ghost predicate Wrote(key: Key, pvc: Pvc, size: int, now: int, before: Pvcs, revision: nat)
      reads api
    {
      && key in before && before[key].version == pvc.version && api.revision == revision + 1
      && api.pvcs == before[key := pvc.(version := revision, request := size,
                                        annotations := pvc.annotations[LAST_EXPANSION := codec.formatTime(now)])]
    }

    /** The guard chain. `exit` says which guard ended it; only an expansion writes, and it
        writes this PVC alone. A claim whose resize is under way is neither expanded nor tried. */
    method ReconcilePVC(key: Key, pvc: Pvc, classes: Classes, around: Surroundings) returns (exit: Exit)
      requires Coherent(storage.flags, storage.fsTypes, classes, {})
      modifies this, storage, api
      ensures Coherent(storage.flags, storage.fsTypes, classes, {})
      ensures exit == ExitOf(codec, global, classes, key, pvc, around, dryRun,
                             pvc.className.Some? && pvc.className.value in old(storage.flags),
                             IsCurrent(old(api.pvcs), key, pvc))
      ensures exit.AlreadyResizing? || Attempted(exit) ==> (exit.AlreadyResizing? <==> ResizeUnderWay(pvc))
      ensures PassedClass(exit) ==>
                && pvc.phase == Bound && pvc.volumeMode != Some(Block)
                && pvc.className.Some? && pvc.className.value in classes
                && classes[pvc.className.value].allowExpansion == Some(true)
      ensures exit.Expanded? && !dryRun ==> Wrote(key, pvc, exit.size, around.later, old(api.pvcs), old(api.revision))
      ensures !exit.Expanded? || dryRun ==> api.pvcs == old(api.pvcs) && api.revision == old(api.revision)
      ensures counters == Settle(old(counters), exit, dryRun)
    {
      var resolved := ResolvePVCConfig(codec, pvc.annotations, pvc.labels, around.policies, global);
      exit := ReconcileResolved(key, pvc, resolved, classes, around);
    }

    method ReconcileResolved(key: Key, pvc: Pvc, resolved: Result<PvcConfig, ResolveError>, classes: Classes,
                             around: Surroundings)
      returns (exit: Exit)
      requires Coherent(storage.flags, storage.fsTypes, classes, {})
      modifies this, storage, api
      ensures Coherent(storage.flags, storage.fsTypes, classes, {})
      ensures exit == ExitGiven(codec, resolved, classes, key, pvc, around, dryRun,
                                pvc.className.Some? && pvc.className.value in old(storage.flags),
                                IsCurrent(old(api.pvcs), key, pvc))
      ensures exit.AlreadyResizing? || Attempted(exit) ==> (exit.AlreadyResizing? <==> ResizeUnderWay(pvc))
      ensures PassedClass(exit) ==>
                && pvc.phase == Bound && pvc.volumeMode != Some(Block)
                && pvc.className.Some? && pvc.className.value in classes
                && classes[pvc.className.value].allowExpansion == Some(true)
      ensures exit.Expanded? && !dryRun ==> Wrote(key, pvc, exit.size, around.later, old(api.pvcs), old(api.revision))
      ensures !exit.Expanded? || dryRun ==> api.pvcs == old(api.pvcs) && api.revision == old(api.revision)
      ensures counters == Settle(old(counters), exit, dryRun)
    {
      if resolved.Err? {
        return Unmanaged;
      }
      if !IsPVCEligible(pvc) {
        return NotEligible;
      }
      var expandable, failed := IsStorageClassExpandable(classes, pvc, around.classFails);
      if !expandable {
        counters := counters.(classRefused := counters.classRefused + 1);
        return ClassRefused;
      }
      exit := ReconcileExpandable(key, pvc, resolved.value, classes, around);
    }

    /** The guards after the storage class, and the expansion they protect. */
    method ReconcileExpandable(key: Key, pvc: Pvc, config: PvcConfig, classes: Classes, around: Surroundings)
      returns (exit: Exit)
      requires Coherent(storage.flags, storage.fsTypes, classes, {})
      modifies this, api
      ensures exit
              == EndAfterClass(codec, config, pvc, around.now, Lookup(around.metrics, Kubelet.CacheKey(key)), dryRun,
                                    IsCurrent(old(api.pvcs), key, pvc) && !around.refused)
      ensures PassedClass(exit)
      ensures exit.AlreadyResizing? || Attempted(exit) ==> (exit.AlreadyResizing? <==> ResizeUnderWay(pvc))
      ensures exit.Expanded? && !dryRun ==> Wrote(key, pvc, exit.size, around.later, old(api.pvcs), old(api.revision))
      ensures !exit.Expanded? || dryRun ==> api.pvcs == old(api.pvcs) && api.revision == old(api.revision)
      ensures counters == Settle(old(counters), exit, dryRun)
    {
      ResizingMeans(pvc);
      if IsPvcResizing(pvc) {
        counters := counters.(resizing := counters.resizing + 1);
        return AlreadyResizing;
      }
      if IsInCooldown(config, around.now) {
        counters := counters.(cooling := counters.cooling + 1);
        return CoolingDown;
      }
      var vm := Lookup(around.metrics, Kubelet.CacheKey(key));
      if vm.None? {
        counters := counters.(noMetrics := counters.noMetrics + 1);
        return NoMetrics;
      }
      var reached := vm.value.usagePercent >= config.threshold;
      if vm.value.inodesTotal > 0 && vm.value.inodesPercent >= config.inodesThreshold {
        var _ := GetFilesystemType(classes, pvc);
        reached := true;
      }
      if !reached {
        return BelowThreshold;
      }
      exit := CountedExpansion(key, pvc, config, around.later, around.refused);
    }

    /** ExpandPVC between the counters that surround it. */
    method CountedExpansion(key: Key, pvc: Pvc, config: PvcConfig, now: int, refused: bool) returns (exit: Exit)
      modifies this, api
      ensures exit == EndOfExpansion(codec, config, pvc, dryRun, IsCurrent(old(api.pvcs), key, pvc) && !refused)
      ensures Attempted(exit)
      ensures exit.Expanded? && !dryRun ==> Wrote(key, pvc, exit.size, now, old(api.pvcs), old(api.revision))
      ensures !exit.Expanded? || dryRun ==> api.pvcs == old(api.pvcs) && api.revision == old(api.revision)
      ensures counters == Settle(old(counters), exit, dryRun)
    {
      counters := counters.(thresholdReached := counters.thresholdReached + 1);
      var r := ExpandPVC(key, pvc, config, now, refused);
      if r.Err? {
        counters := counters.(expansionFailed := counters.expansionFailed + 1);
        return Failed(r.error);
      }
      counters := counters.(succeeded := counters.succeeded + 1);
      return Expanded(r.value);
    }
  }
}
