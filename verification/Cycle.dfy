/** One expander cycle after another as a state machine: the main loop, the goroutine of each
    managed PVC, the semaphore, the shared storage-class cache and the counters
    (internal/controller/persistentvolumeclaim_controller.go). */
module Cycle {
  import opened Kube
  import opened Annotations
  import opened Storage
  import opened Expander
  import Kubelet

  /** MaxParallel, with its default. */
  function EffectiveParallel(configured: int): (n: nat)
    ensures n >= 1 && (configured >= 1 ==> n == configured) && (configured < 1 ==> n == 4)
  {
    if configured <= 0 then 4 else configured
  }

  /** Where the goroutine of one PVC is. */
  datatype Phase =
    | Waiting                                               // no semaphore slot yet
    | Entered                                               // holds a slot, about to resolve
    | AskingClass(config: PvcConfig)                        // about to read the class cache
    | Fetching(config: PvcConfig, name: string)             // missed, about to get the class
    | StoringFlag(config: PvcConfig, name: string, class_: StorageClass)
    | StoringFsType(config: PvcConfig, name: string, class_: StorageClass)
    | ClassPassed(config: PvcConfig)
    | Expanding(config: PvcConfig)                          // threshold counted, inside ExpandPVC
    | OverLimitCounted                                      // limit counted, failure not yet
    | Done(exit: Exit)                                      // slot released

  datatype State = State(
    max: nat, dryRun: bool,
    running: bool, jobs: seq<Pvc>, phases: seq<Phase>,
    counters: Counters, atStart: Counters,
    classes: Classes, flags: map<string, bool>, fsTypes: map<string, string>)

  datatype Event =
    | Begin(jobs: seq<Pvc>)
    | BeginFailed                                           // a list call fails: only the cache is cleared
    | ChangeClasses(classes: Classes)
    | Spawn
    | Worker(i: nat, action: Action)
    | End

  datatype Action =
    | Acquire
    | Resolve(config: Option<PvcConfig>)
    | AskClass
    | FetchClass(available: bool)
    | StoreFlag
    | StoreFsType
    | Guard(now: int, vm: Option<Kubelet.VolumeMetrics>)
    | Attempt(accepted: bool)
    | CountFailure

  /** What one action of one worker changes. */
  datatype Outcome = Outcome(to: Phase, counters: Counters, flags: map<string, bool>, fsTypes: map<string, string>)

  predicate Holding(p: Phase) {
    !p.Waiting? && !p.Done?
  }

  predicate InsideExpansion(p: Phase) {
    p.Expanding? || p.OverLimitCounted?
  }

  predicate LimitPending(p: Phase) {
    p.OverLimitCounted?
  }

  predicate EndedExpanded(p: Phase) {
    p.Done? && p.exit.Expanded?
  }

  predicate EndedFailed(p: Phase) {
    p.Done? && p.exit.Failed?
  }

  predicate EndedRefused(p: Phase) {
    p.Done? && p.exit.ClassRefused?
  }

  predicate EndedResizing(p: Phase) {
    p.Done? && p.exit.AlreadyResizing?
  }

  predicate EndedCooling(p: Phase) {
    p.Done? && p.exit.CoolingDown?
  }

  predicate EndedNoMetrics(p: Phase) {
    p.Done? && p.exit.NoMetrics?
  }

  function Count(ps: seq<Phase>, f: Phase -> bool): nat {
    if ps == [] then 0 else (if f(ps[0]) then 1 else 0) + Count(ps[1..], f)
  }

  function Indicator(b: bool): nat {
    if b then 1 else 0
  }

  /** The worker moves on; nothing shared changes. */
  function Go(s: State, to: Phase): Option<Outcome> {
    Some(Outcome(to, s.counters, s.flags, s.fsTypes))
  }

  /** The worker ends: it counts its exit and releases its slot. */
  function Finish(s: State, exit: Exit): Option<Outcome> {
    Some(Outcome(Done(exit), Bump(s.counters, exit), s.flags, s.fsTypes))
  }

  function OnResolve(s: State, job: Pvc, config: Option<PvcConfig>): Option<Outcome> {
    if config.None? then Finish(s, Unmanaged)
    else if !IsPVCEligible(job) then Finish(s, NotEligible)
    else Go(s, AskingClass(config.value))
  }

  function OnAskClass(s: State, job: Pvc, config: PvcConfig): Option<Outcome> {
    if job.className.None? then Finish(s, ClassRefused)
    else
      var name := job.className.value;
      if name !in s.flags then Go(s, Fetching(config, name))
      else if s.flags[name] then Go(s, ClassPassed(config))
      else Finish(s, ClassRefused)
  }

  function OnFetchClass(s: State, config: PvcConfig, name: string, available: bool): Option<Outcome> {
    if !available || name !in s.classes then Finish(s, ClassRefused)
    else Go(s, StoringFlag(config, name, s.classes[name]))
  }

  function OnStoreFsType(s: State, config: PvcConfig, name: string, class_: StorageClass): Option<Outcome> {
    var stored := s.(fsTypes := s.fsTypes[name := FsType(class_)]);
    if Expandable(class_) then Go(stored, ClassPassed(config)) else Finish(stored, ClassRefused)
  }

  function OnGuard(s: State, job: Pvc, config: PvcConfig, now: int, vm: Option<Kubelet.VolumeMetrics>): Option<Outcome>
  {
    match LateGuards(config, job, now, vm)
    case Some(exit) => Finish(s, exit)
    case None => Go(s.(counters := s.counters.(thresholdReached := s.counters.thresholdReached + 1)), Expanding(config))
  }

  function OnAttempt(codec: Codec, s: State, job: Pvc, config: PvcConfig, accepted: bool): Option<Outcome> {
    match NewSize(codec, config, job)
    case Err(failure) =>
      if failure.OverLimit?
      then Go(s.(counters := s.counters.(limitReached := s.counters.limitReached + 1)), OverLimitCounted)
      else Finish(s, Failed(failure))
    case Ok(size) =>
      if s.dryRun then Finish(s, Expanded(size))
      else if accepted then Finish(s.(counters := s.counters.(written := s.counters.written + 1)), Expanded(size))
      else Finish(s, Failed(UpdateRefused))
  }

  /** One action of the worker of `job`, None where the worker is not at that point. */
  function Act(codec: Codec, s: State, job: Pvc, from: Phase, action: Action): Option<Outcome> {
    match (from, action) {
      case (Waiting, Acquire) => if Count(s.phases, Holding) < s.max then Go(s, Entered) else None
      case (Entered, Resolve(config)) => OnResolve(s, job, config)
      case (AskingClass(config), AskClass) => OnAskClass(s, job, config)
      case (Fetching(config, name), FetchClass(available)) => OnFetchClass(s, config, name, available)
      case (StoringFlag(config, name, class_), StoreFlag) =>
        Go(s.(flags := s.flags[name := Expandable(class_)]), StoringFsType(config, name, class_))
      case (StoringFsType(config, name, class_), StoreFsType) => OnStoreFsType(s, config, name, class_)
      case (ClassPassed(config), Guard(now, vm)) => OnGuard(s, job, config, now, vm)
      case (Expanding(config), Attempt(accepted)) => OnAttempt(codec, s, job, config, accepted)
      case (OverLimitCounted, CountFailure) => Finish(s, Failed(OverLimit))
      case _ => None
    }
  }

  predicate AllDone(s: State) {
    |s.phases| == |s.jobs| && forall i :: 0 <= i < |s.phases| ==> s.phases[i].Done?
  }

  function After(s: State, i: nat, o: Outcome): State
    requires i < |s.phases|
  {
    s.(phases := s.phases[i := o.to], counters := o.counters, flags := o.flags, fsTypes := o.fsTypes)
  }

  /** The state after an event, None when the event cannot happen. */
  function Next(codec: Codec, s: State, e: Event): Option<State> {
    match e
    case Begin(jobs) =>
      if s.running then None
      else
        Some(s.(running := true, jobs := jobs, phases := [], atStart := s.counters,
                flags := map[], fsTypes := map[]))
    case BeginFailed =>
      if s.running then None else Some(s.(flags := map[], fsTypes := map[]))
    case ChangeClasses(classes) =>
      if s.running then None else Some(s.(classes := classes))
    case Spawn =>
      if !s.running || |s.phases| >= |s.jobs| then None else Some(s.(phases := s.phases + [Waiting]))
    case End =>
      if s.running && AllDone(s) then Some(s.(running := false)) else None
    case Worker(i, action) =>
      if !s.running || i >= |s.phases| || i >= |s.jobs| then None
      else
        var o := Act(codec, s, s.jobs[i], s.phases[i], action);
        if o.Some? then Some(After(s, i, o.value)) else None
  }

  // ---- Counting workers ----

  lemma {:induction false} CountUpdate(ps: seq<Phase>, i: nat, p: Phase, f: Phase -> bool)
    requires i < |ps|
    ensures Count(ps[i := p], f) + Indicator(f(ps[i])) == Count(ps, f) + Indicator(f(p))
  {
    if i == 0 {
      assert ps[0 := p][1..] == ps[1..];
    } else {
      CountUpdate(ps[1..], i - 1, p, f);
      assert ps[i := p][1..] == ps[1..][i - 1 := p];
    }
  }

  lemma {:induction false} CountAppend(ps: seq<Phase>, p: Phase, f: Phase -> bool)
    ensures Count(ps + [p], f) == Count(ps, f) + Indicator(f(p))
  {
    if ps == [] {
      assert [p][1..] == [];
    } else {
      CountAppend(ps[1..], p, f);
      assert (ps + [p])[1..] == ps[1..] + [p];
    }
  }

  lemma {:induction false} CountNone(ps: seq<Phase>, f: Phase -> bool)
    requires forall i :: 0 <= i < |ps| ==> !f(ps[i])
    ensures Count(ps, f) == 0
  {
    if ps != [] {
      CountNone(ps[1..], f);
    }
  }

  lemma {:induction false} CountSome(ps: seq<Phase>, f: Phase -> bool) returns (i: nat)
    requires Count(ps, f) > 0
    ensures i < |ps| && f(ps[i])
  {
    if f(ps[0]) {
      i := 0;
    } else {
      var j := CountSome(ps[1..], f);
      i := j + 1;
    }
  }

  // ---- The invariant ----

  /** No more than max workers hold a slot. */
  predicate Bounded(s: State) {
    && s.max >= 1
    && |s.phases| <= |s.jobs|
    && Count(s.phases, Holding) <= s.max
    && (!s.running ==> AllDone(s))
  }

  /** Every threshold crossing is a success, a failure or a worker still inside the expansion;
      every limit hit is a failure or about to become one; and writes are successes. */
  predicate Accounted(s: State) {
    && s.counters.thresholdReached
       == s.counters.succeeded + s.counters.expansionFailed + Count(s.phases, InsideExpansion)
    && s.counters.limitReached <= s.counters.expansionFailed + Count(s.phases, LimitPending)
    && s.counters.written == if s.dryRun then 0 else s.counters.succeeded
  }

  /** Since the cycle began, each counter moved by the number of workers that took its exit. */
  predicate ExitsCounted(s: State) {
    && s.counters.succeeded == s.atStart.succeeded + Count(s.phases, EndedExpanded)
    && s.counters.expansionFailed == s.atStart.expansionFailed + Count(s.phases, EndedFailed)
    && s.counters.classRefused == s.atStart.classRefused + Count(s.phases, EndedRefused)
    && s.counters.resizing == s.atStart.resizing + Count(s.phases, EndedResizing)
    && s.counters.cooling == s.atStart.cooling + Count(s.phases, EndedCooling)
    && s.counters.noMetrics == s.atStart.noMetrics + Count(s.phases, EndedNoMetrics)
  }

  /** The names whose lookup is between its two stores. */
  ghost function BetweenStores(ps: seq<Phase>): set<string> {
    set i | 0 <= i < |ps| && ps[i].StoringFsType? :: ps[i].name
  }

  /** What a worker carries about its class is the class's own. */
  predicate ClassTruth(classes: Classes, job: Pvc, p: Phase) {
    && (p.Fetching? || p.StoringFlag? || p.StoringFsType? ==> job.className == Some(p.name))
    && (p.StoringFlag? || p.StoringFsType? ==> p.name in classes && p.class_ == classes[p.name])
    && (p.ClassPassed? || InsideExpansion(p) || EndedExpanded(p) ==> ClassAllows(classes, job))
  }

  /** A worker that has stored or read its class's expandability finds it cached. */
  predicate ClassCached(flags: map<string, bool>, job: Pvc, p: Phase) {
    p.StoringFsType? || p.ClassPassed? || InsideExpansion(p) ==>
      job.className.Some? && job.className.value in flags
  }

  predicate PassedAreCached(s: State) {
    && |s.phases| <= |s.jobs|
    && (s.running ==> forall i :: 0 <= i < |s.phases| ==> ClassCached(s.flags, s.jobs[i], s.phases[i]))
  }

  ghost predicate CacheTruth(s: State) {
    && |s.phases| <= |s.jobs|
    && (s.running ==> Coherent(s.flags, s.fsTypes, s.classes, BetweenStores(s.phases)))
    && (s.running ==> forall i :: 0 <= i < |s.phases| ==> ClassTruth(s.classes, s.jobs[i], s.phases[i]))
  }

  predicate Initial(s: State) {
    && s.max >= 1 && !s.running && s.jobs == [] && s.phases == []
    && s.counters == Counters(0, 0, 0, 0, 0, 0, 0, 0, 0) && s.atStart == s.counters
    && s.flags == map[] && s.fsTypes == map[]
  }

  // ---- Steps keep the invariant ----

  /** How an action may move a worker and the counters, whatever the PVC. */
  predicate Allowed(dryRun: bool, from: Phase, to: Phase, c: Counters, c': Counters) {
    || (from.Waiting? && to.Entered? && c' == c)
    || (Holding(from) && !InsideExpansion(from) && Holding(to) && !InsideExpansion(to) && c' == c)
    || (Holding(from) && !InsideExpansion(from) && to.Done? && !to.exit.Failed? && !to.exit.Expanded?
        && c' == Bump(c, to.exit))
    || (from.ClassPassed? && to.Expanding? && c' == c.(thresholdReached := c.thresholdReached + 1))
    || (from.Expanding? && to.OverLimitCounted? && c' == c.(limitReached := c.limitReached + 1))
    || (InsideExpansion(from) && to.Done? && to.exit.Failed? && c' == Bump(c, to.exit))
    || (from.Expanding? && to.Done? && to.exit.Expanded?
        && c' == Bump(c.(written := c.written + if dryRun then 0 else 1), to.exit))
  }

  lemma AttemptIsAllowed(codec: Codec, s: State, job: Pvc, config: PvcConfig, accepted: bool)
    ensures OnAttempt(codec, s, job, config, accepted).Some?
    ensures Allowed(s.dryRun, Expanding(config), OnAttempt(codec, s, job, config, accepted).value.to,
                    s.counters, OnAttempt(codec, s, job, config, accepted).value.counters)
  {
  }

  lemma ActIsAllowed(codec: Codec, s: State, job: Pvc, from: Phase, action: Action)
    requires Act(codec, s, job, from, action).Some?
    ensures Allowed(s.dryRun, from, Act(codec, s, job, from, action).value.to, s.counters,
                    Act(codec, s, job, from, action).value.counters)
    ensures from.Waiting? ==> Count(s.phases, Holding) < s.max
  {
    if from.Expanding? && action.Attempt? {
      AttemptIsAllowed(codec, s, job, from.config, action.accepted);
    }
  }

  lemma WorkerStepIsAllowed(codec: Codec, s: State, i: nat, action: Action, s': State)
    requires Next(codec, s, Worker(i, action)) == Some(s')
    ensures s.running && s'.running && i < |s.phases| && i < |s.jobs|
    ensures s'.phases == s.phases[i := s'.phases[i]]
    ensures s'.max == s.max && s'.dryRun == s.dryRun && s'.jobs == s.jobs && s'.atStart == s.atStart
            && s'.classes == s.classes
    ensures Allowed(s.dryRun, s.phases[i], s'.phases[i], s.counters, s'.counters)
    ensures s.phases[i].Waiting? ==> Count(s.phases, Holding) < s.max
  {
    ActIsAllowed(codec, s, s.jobs[i], s.phases[i], action);
  }

  lemma BoundedStep(codec: Codec, s: State, e: Event, s': State)
    requires Bounded(s) && Next(codec, s, e) == Some(s')
    ensures Bounded(s')
  {
    if e.Spawn? {
      CountAppend(s.phases, Waiting, Holding);
    } else if e.Worker? {
      WorkerStepIsAllowed(codec, s, e.i, e.action, s');
      CountUpdate(s.phases, e.i, s'.phases[e.i], Holding);
    }
  }

  lemma AccountedStep(codec: Codec, s: State, e: Event, s': State)
    requires Bounded(s) && Accounted(s) && Next(codec, s, e) == Some(s')
    ensures Accounted(s')
  {
    if e.Begin? {
      CountNone(s.phases, InsideExpansion);
      CountNone(s.phases, LimitPending);
    } else if e.Spawn? {
      CountAppend(s.phases, Waiting, InsideExpansion);
      CountAppend(s.phases, Waiting, LimitPending);
    } else if e.Worker? {
      WorkerStepIsAllowed(codec, s, e.i, e.action, s');
      CountUpdate(s.phases, e.i, s'.phases[e.i], InsideExpansion);
      CountUpdate(s.phases, e.i, s'.phases[e.i], LimitPending);
    }
  }

  lemma AllowedCounts(dryRun: bool, from: Phase, to: Phase, c: Counters, c': Counters)
    requires Allowed(dryRun, from, to, c, c')
    ensures !from.Done?
    ensures c'.succeeded == c.succeeded + Indicator(EndedExpanded(to))
    ensures c'.expansionFailed == c.expansionFailed + Indicator(EndedFailed(to))
    ensures c'.classRefused == c.classRefused + Indicator(EndedRefused(to))
    ensures c'.resizing == c.resizing + Indicator(EndedResizing(to))
    ensures c'.cooling == c.cooling + Indicator(EndedCooling(to))
    ensures c'.noMetrics == c.noMetrics + Indicator(EndedNoMetrics(to))
  {
  }

  lemma ExitsCountedAfterMove(s: State, s': State, i: nat)
    requires ExitsCounted(s) && i < |s.phases| == |s'.phases| && s'.phases == s.phases[i := s'.phases[i]]
    requires s'.atStart == s.atStart && Allowed(s.dryRun, s.phases[i], s'.phases[i], s.counters, s'.counters)
    ensures ExitsCounted(s')
  {
    var p := s'.phases[i];
    AllowedCounts(s.dryRun, s.phases[i], p, s.counters, s'.counters);
    CountUpdate(s.phases, i, p, EndedExpanded);
    CountUpdate(s.phases, i, p, EndedFailed);
    CountUpdate(s.phases, i, p, EndedRefused);
    CountUpdate(s.phases, i, p, EndedResizing);
    CountUpdate(s.phases, i, p, EndedCooling);
    CountUpdate(s.phases, i, p, EndedNoMetrics);
  }

  lemma ExitsCountedStep(codec: Codec, s: State, e: Event, s': State)
    requires ExitsCounted(s) && Next(codec, s, e) == Some(s')
    ensures ExitsCounted(s')
  {
    if e.Spawn? {
      CountAppend(s.phases, Waiting, EndedExpanded);
      CountAppend(s.phases, Waiting, EndedFailed);
      CountAppend(s.phases, Waiting, EndedRefused);
      CountAppend(s.phases, Waiting, EndedResizing);
      CountAppend(s.phases, Waiting, EndedCooling);
      CountAppend(s.phases, Waiting, EndedNoMetrics);
    } else if e.Worker? {
      WorkerStepIsAllowed(codec, s, e.i, e.action, s');
      ExitsCountedAfterMove(s, s', e.i);
    }
  }

  lemma BetweenStoresAfter(s: State, s': State, i: nat)
    requires i < |s.phases| == |s'.phases| && s'.phases == s.phases[i := s'.phases[i]]
    ensures !s.phases[i].StoringFsType? && !s'.phases[i].StoringFsType? ==>
              BetweenStores(s'.phases) == BetweenStores(s.phases)
    ensures !s.phases[i].StoringFsType? && s'.phases[i].StoringFsType? ==>
              BetweenStores(s'.phases) == BetweenStores(s.phases) + {s'.phases[i].name}
    ensures s.phases[i].StoringFsType? && !s'.phases[i].StoringFsType? ==>
              s.phases[i].name in BetweenStores(s.phases) && BetweenStores(s.phases) - {s.phases[i].name}
                <= BetweenStores(s'.phases) <= BetweenStores(s.phases)
  {
    forall n | n in BetweenStores(s.phases)
      ensures n in BetweenStores(s'.phases) || (s.phases[i].StoringFsType? && s.phases[i].name == n)
    {
      var j :| 0 <= j < |s.phases| && s.phases[j].StoringFsType? && s.phases[j].name == n;
      assert j != i ==> s'.phases[j] == s.phases[j];
    }
    forall n | n in BetweenStores(s'.phases)
      ensures n in BetweenStores(s.phases) || (s'.phases[i].StoringFsType? && s'.phases[i].name == n)
    {
      var j :| 0 <= j < |s.phases| && s'.phases[j].StoringFsType? && s'.phases[j].name == n;
      assert j != i ==> s'.phases[j] == s.phases[j];
    }
  }

  /** How an action may change the shared cache. */
  predicate CacheMove(s: State, from: Phase, o: Outcome) {
    || (o.flags == s.flags && o.fsTypes == s.fsTypes && !from.StoringFlag? && !from.StoringFsType?
        && !o.to.StoringFsType?)
    || (from.StoringFlag? && o.flags == s.flags[from.name := Expandable(from.class_)] && o.fsTypes == s.fsTypes
        && o.to.StoringFsType? && o.to.name == from.name)
    || (from.StoringFsType? && o.flags == s.flags && o.fsTypes == s.fsTypes[from.name := FsType(from.class_)]
        && !o.to.StoringFsType?)
  }

  lemma AttemptLeavesCache(codec: Codec, s: State, job: Pvc, config: PvcConfig, accepted: bool)
    ensures OnAttempt(codec, s, job, config, accepted).Some?
    ensures var o := OnAttempt(codec, s, job, config, accepted).value;
            o.flags == s.flags && o.fsTypes == s.fsTypes && (o.to.OverLimitCounted? || o.to.Done?)
  {
  }

  lemma GuardLeavesCache(s: State, job: Pvc, config: PvcConfig, now: int, vm: Option<Kubelet.VolumeMetrics>)
    ensures OnGuard(s, job, config, now, vm).Some?
    ensures var o := OnGuard(s, job, config, now, vm).value;
            o.flags == s.flags && o.fsTypes == s.fsTypes && (o.to.Expanding? || o.to.Done?)
  {
  }

  lemma ActMovesCache(codec: Codec, s: State, job: Pvc, from: Phase, action: Action)
    requires Act(codec, s, job, from, action).Some?
    ensures CacheMove(s, from, Act(codec, s, job, from, action).value)
  {
    if from.Expanding? && action.Attempt? {
      AttemptLeavesCache(codec, s, job, from.config, action.accepted);
    } else if from.ClassPassed? && action.Guard? {
      GuardLeavesCache(s, job, from.config, action.now, action.vm);
    }
  }

  lemma ActKeepsClassTruth(codec: Codec, s: State, job: Pvc, from: Phase, action: Action)
    requires ClassTruth(s.classes, job, from) && Act(codec, s, job, from, action).Some?
    requires forall n :: n in s.flags ==> n in s.classes && s.flags[n] == Expandable(s.classes[n])
    ensures ClassTruth(s.classes, job, Act(codec, s, job, from, action).value.to)
  {
    if from.Expanding? && action.Attempt? {
      AttemptLeavesCache(codec, s, job, from.config, action.accepted);
    }
  }

  lemma StoringFsTypeKeepsCoherence(flags: map<string, bool>, fsTypes: map<string, string>, classes: Classes,
                                    pending: set<string>, name: string, pending': set<string>)
    requires Coherent(flags, fsTypes, classes, pending) && name in pending && name in classes
    requires pending - {name} <= pending' <= pending
    ensures Coherent(flags, fsTypes[name := FsType(classes[name])], classes, pending')
  {
  }

  lemma StoringFlagKeepsCoherence(flags: map<string, bool>, fsTypes: map<string, string>, classes: Classes,
                                  pending: set<string>, name: string)
    requires Coherent(flags, fsTypes, classes, pending) && name in classes
    ensures Coherent(flags[name := Expandable(classes[name])], fsTypes, classes, pending + {name})
  {
  }

  lemma CoherentAfterMove(s: State, s': State, i: nat, o: Outcome)
    requires Coherent(s.flags, s.fsTypes, s.classes, BetweenStores(s.phases))
    requires i < |s.phases| && i < |s.jobs| && ClassTruth(s.classes, s.jobs[i], s.phases[i])
    requires s' == After(s, i, o) && CacheMove(s, s.phases[i], o)
    ensures Coherent(s'.flags, s'.fsTypes, s'.classes, BetweenStores(s'.phases))
  {
    BetweenStoresAfter(s, s', i);
    if s.phases[i].StoringFlag? {
      StoringFlagKeepsCoherence(s.flags, s.fsTypes, s.classes, BetweenStores(s.phases), s.phases[i].name);
    } else if s.phases[i].StoringFsType? {
      StoringFsTypeKeepsCoherence(s.flags, s.fsTypes, s.classes, BetweenStores(s.phases), s.phases[i].name,
                                  BetweenStores(s'.phases));
    }
  }

  lemma CacheTruthStep(codec: Codec, s: State, e: Event, s': State)
    requires CacheTruth(s) && Next(codec, s, e) == Some(s')
    ensures CacheTruth(s')
  {
    if e.Spawn? {
      BetweenStoresAfterSpawn(s, s');
    } else if e.Worker? {
      var o := Act(codec, s, s.jobs[e.i], s.phases[e.i], e.action).value;
      ActKeepsClassTruth(codec, s, s.jobs[e.i], s.phases[e.i], e.action);
      ActMovesCache(codec, s, s.jobs[e.i], s.phases[e.i], e.action);
      CoherentAfterMove(s, s', e.i, o);
      forall i | 0 <= i < |s'.phases|
        ensures ClassTruth(s'.classes, s'.jobs[i], s'.phases[i])
      {
        assert i != e.i ==> ClassTruth(s.classes, s.jobs[i], s.phases[i]);
      }
    }
  }

  lemma BetweenStoresAfterSpawn(s: State, s': State)
    requires s'.phases == s.phases + [Waiting]
    ensures BetweenStores(s'.phases) == BetweenStores(s.phases)
  {
    forall n | n in BetweenStores(s.phases)
      ensures n in BetweenStores(s'.phases)
    {
      var j :| 0 <= j < |s.phases| && s.phases[j].StoringFsType? && s.phases[j].name == n;
      assert s'.phases[j] == s.phases[j];
    }
  }

  lemma AttemptKeepsClassCached(codec: Codec, s: State, job: Pvc, config: PvcConfig, accepted: bool)
    requires ClassCached(s.flags, job, Expanding(config))
    ensures OnAttempt(codec, s, job, config, accepted).Some?
    ensures var o := OnAttempt(codec, s, job, config, accepted).value;
            o.flags == s.flags && ClassCached(o.flags, job, o.to)
  {
    AttemptLeavesCache(codec, s, job, config, accepted);
  }

  lemma ActKeepsClassCached(codec: Codec, s: State, job: Pvc, from: Phase, action: Action)
    requires ClassTruth(s.classes, job, from) && ClassCached(s.flags, job, from)
             && Act(codec, s, job, from, action).Some?
    ensures s.flags.Keys <= Act(codec, s, job, from, action).value.flags.Keys
    ensures ClassCached(Act(codec, s, job, from, action).value.flags, job, Act(codec, s, job, from, action).value.to)
  {
    if from.Expanding? && action.Attempt? {
      AttemptKeepsClassCached(codec, s, job, from.config, action.accepted);
    } else if from.ClassPassed? && action.Guard? {
      GuardLeavesCache(s, job, from.config, action.now, action.vm);
    }
  }

  lemma PassedAreCachedStep(codec: Codec, s: State, e: Event, s': State)
    requires CacheTruth(s) && PassedAreCached(s) && Next(codec, s, e) == Some(s')
    ensures PassedAreCached(s')
  {
    if e.Worker? {
      assert ClassTruth(s.classes, s.jobs[e.i], s.phases[e.i]) && ClassCached(s.flags, s.jobs[e.i], s.phases[e.i]);
      ActKeepsClassCached(codec, s, s.jobs[e.i], s.phases[e.i], e.action);
      forall i | 0 <= i < |s'.phases|
        ensures ClassCached(s'.flags, s'.jobs[i], s'.phases[i])
      {
        assert i != e.i ==> ClassCached(s.flags, s.jobs[i], s.phases[i]);
      }
    }
  }

  // ---- Runs ----

  datatype Run = Start(first: State) | Then(before: Run, event: Event, state: State)

  function Last(r: Run): State {
    match r
    case Start(s) => s
    case Then(_, _, s) => s
  }

  predicate IsRun(codec: Codec, r: Run) {
    match r
    case Start(s) => Initial(s)
    case Then(before, e, s) => IsRun(codec, before) && Next(codec, Last(before), e) == Some(s)
  }

  lemma {:induction false} RunsKeepInvariant(codec: Codec, r: Run)
    requires IsRun(codec, r)
    ensures Bounded(Last(r)) && Accounted(Last(r)) && ExitsCounted(Last(r))
    ensures CacheTruth(Last(r)) && PassedAreCached(Last(r))
  {
    if r.Then? {
      RunsKeepInvariant(codec, r.before);
      BoundedStep(codec, Last(r.before), r.event, r.state);
      AccountedStep(codec, Last(r.before), r.event, r.state);
      ExitsCountedStep(codec, Last(r.before), r.event, r.state);
      CacheTruthStep(codec, Last(r.before), r.event, r.state);
      PassedAreCachedStep(codec, Last(r.before), r.event, r.state);
    }
  }

  /** In every schedule at most MaxParallel PVCs are between taking and releasing a slot. */
  lemma PoolIsBounded(codec: Codec, r: Run)
    requires IsRun(codec, r)
    ensures Count(Last(r).phases, Holding) <= Last(r).max
  {
    RunsKeepInvariant(codec, r);
  }

  /** The cache is cleared only while no worker of the cycle before is left. */
  lemma ClearNeverOverlapsWorkers(codec: Codec, r: Run, e: Event)
    requires IsRun(codec, r) && Next(codec, Last(r), e).Some?
    requires e.Begin? || e.BeginFailed?
    ensures forall i :: 0 <= i < |Last(r).phases| ==> Last(r).phases[i].Done?
    ensures |Last(r).phases| == |Last(r).jobs|
  {
    RunsKeepInvariant(codec, r);
  }

  /** Threshold crossings are never lost: each is a success, a failure, or still in hand. */
  lemma {:induction false} OutcomesAreAccounted(codec: Codec, r: Run)
    requires IsRun(codec, r)
    ensures var s := Last(r);
            && s.counters.thresholdReached
               == s.counters.succeeded + s.counters.expansionFailed + Count(s.phases, InsideExpansion)
            && s.counters.limitReached <= s.counters.expansionFailed + Count(s.phases, InsideExpansion)
            && s.counters.written == if s.dryRun then 0 else s.counters.succeeded
  {
    RunsKeepInvariant(codec, r);
    CountImplied(Last(r).phases);
  }

  lemma {:induction false} CountImplied(ps: seq<Phase>)
    ensures Count(ps, LimitPending) <= Count(ps, InsideExpansion)
  {
    if ps != [] {
      CountImplied(ps[1..]);
    }
  }

  /** Between cycles every job has exactly one exit and the counters say which: the crossings
      of the cycle are the PVCs that ended expanded or failed. */
  lemma CycleSettles(codec: Codec, r: Run)
    requires IsRun(codec, r) && !Last(r).running
    ensures var s := Last(r);
            && AllDone(s)
            && s.counters.succeeded - s.atStart.succeeded == Count(s.phases, EndedExpanded)
            && s.counters.expansionFailed - s.atStart.expansionFailed == Count(s.phases, EndedFailed)
            && s.counters.classRefused - s.atStart.classRefused == Count(s.phases, EndedRefused)
            && s.counters.resizing - s.atStart.resizing == Count(s.phases, EndedResizing)
            && s.counters.cooling - s.atStart.cooling == Count(s.phases, EndedCooling)
            && s.counters.noMetrics - s.atStart.noMetrics == Count(s.phases, EndedNoMetrics)
            && s.counters.thresholdReached == s.counters.succeeded + s.counters.expansionFailed
  {
    RunsKeepInvariant(codec, r);
    CountNone(Last(r).phases, InsideExpansion);
  }

  /** During a cycle every cached answer is the class's own and no failed lookup is cached; a
      worker that expanded did so for a class that allows it, whichever worker cached the answer;
      the two maps are complete whenever no lookup is between its two stores. */
  lemma CacheAnswersAreDirect(codec: Codec, r: Run)
    requires IsRun(codec, r) && Last(r).running
    ensures var s := Last(r);
            && (forall n :: n in s.flags ==>
                  n in s.classes && (s.flags[n] <==> s.classes[n].allowExpansion == Some(true)))
            && (forall n :: n in s.fsTypes ==> n in s.classes && s.fsTypes[n] == FsType(s.classes[n]))
            && (BetweenStores(s.phases) == {} ==> s.flags.Keys == s.fsTypes.Keys)
            && |s.phases| <= |s.jobs|
            && (forall i :: 0 <= i < |s.phases| && (InsideExpansion(s.phases[i]) || EndedExpanded(s.phases[i])) ==>
                  && s.jobs[i].className.Some? && s.jobs[i].className.value in s.classes
                  && s.classes[s.jobs[i].className.value].allowExpansion == Some(true))
  {
    RunsKeepInvariant(codec, r);
    assert forall i :: 0 <= i < |Last(r).phases| ==> ClassTruth(Last(r).classes, Last(r).jobs[i], Last(r).phases[i]);
  }

  /** Once past the class, a worker is not refused for it any more. */
  lemma PassedIsNotRefused(codec: Codec, s: State, job: Pvc, from: Phase, action: Action)
    requires (from.ClassPassed? || InsideExpansion(from)) && Act(codec, s, job, from, action).Some?
    ensures Act(codec, s, job, from, action).value.to != Done(ClassRefused)
    ensures !Act(codec, s, job, from, action).value.to.ClassPassed?
  {
    if from.Expanding? {
      AttemptIsNoRefusal(codec, s, job, from.config, action.accepted);
    }
  }

  lemma EarlyActDecides(codec: Codec, s: State, job: Pvc, from: Phase, action: Action)
    requires !from.ClassPassed? && !InsideExpansion(from)
    requires ClassTruth(s.classes, job, from) && Act(codec, s, job, from, action).Some?
    requires forall n :: n in s.flags ==> n in s.classes && s.flags[n] == Expandable(s.classes[n])
    ensures var to := Act(codec, s, job, from, action).value.to;
            && (to.ClassPassed? ==> ClassAllows(s.classes, job))
            && (to == Done(ClassRefused) && ClassAllows(s.classes, job) ==> LookupFails(from, action))
  {
  }

  /** How a step of a worker decides on its class: it passes only a class that allows expansion;
      it refuses one that does only because its own lookup fails; and on a cache hit it passes
      exactly when the class allows. */
  lemma ClassStepIsDirect(codec: Codec, s: State, i: nat, action: Action, s': State)
    requires CacheTruth(s) && Next(codec, s, Worker(i, action)) == Some(s')
    ensures i < |s.phases| && i < |s.jobs| && i < |s'.phases| && s'.jobs == s.jobs && s'.classes == s.classes
    ensures s'.phases[i].ClassPassed? ==> ClassAllows(s.classes, s.jobs[i])
    ensures s'.phases[i] == Done(ClassRefused) && ClassAllows(s.classes, s.jobs[i]) ==> LookupFails(s.phases[i], action)
    ensures s.phases[i].AskingClass? && s.jobs[i].className.Some? && s.jobs[i].className.value in s.flags ==>
              (s'.phases[i].ClassPassed? <==> ClassAllows(s.classes, s.jobs[i]))
  {
    var job, from := s.jobs[i], s.phases[i];
    assert ClassTruth(s.classes, job, from);
    if from.ClassPassed? || InsideExpansion(from) {
      PassedIsNotRefused(codec, s, job, from, action);
    } else {
      EarlyActDecides(codec, s, job, from, action);
      if from.AskingClass? && job.className.Some? && job.className.value in s.flags {
        HitDecides(codec, s, job, from, action);
      }
    }
  }

  lemma HitDecides(codec: Codec, s: State, job: Pvc, from: Phase, action: Action)
    requires from.AskingClass? && job.className.Some? && job.className.value in s.flags
    requires forall n :: n in s.flags ==> n in s.classes && s.flags[n] == Expandable(s.classes[n])
    requires Act(codec, s, job, from, action).Some?
    ensures Act(codec, s, job, from, action).value.to.ClassPassed? <==> ClassAllows(s.classes, job)
  {
  }

  predicate LookupFails(p: Phase, action: Action) {
    p.Fetching? && action == FetchClass(false)
  }

  lemma AttemptIsNoRefusal(codec: Codec, s: State, job: Pvc, config: PvcConfig, accepted: bool)
    ensures OnAttempt(codec, s, job, config, accepted).Some?
    ensures OnAttempt(codec, s, job, config, accepted).value.to != Done(ClassRefused)
  {
  }

  /** The lookup of worker i failed in the cycle under way. */
  predicate LookupFailed(r: Run, i: nat) {
    r.Then? && !r.event.Begin? && (FailsLookup(r, i) || LookupFailed(r.before, i))
  }

  /** The last step of the run is the failing lookup of worker i. */
  predicate FailsLookup(r: Run, i: nat)
    requires r.Then?
  {
    var s := Last(r.before);
    r.event.Worker? && r.event.i == i && i < |s.phases| && LookupFails(s.phases[i], r.event.action)
  }

  /** A worker whose class was refused although it allows expansion had its own lookup fail. */
  lemma {:induction false} RefusalsAreDirect(codec: Codec, r: Run, i: nat)
    requires IsRun(codec, r) && Last(r).running && i < |Last(r).phases| && i < |Last(r).jobs|
    requires Last(r).phases[i] == Done(ClassRefused) && ClassAllows(Last(r).classes, Last(r).jobs[i])
    ensures LookupFailed(r, i)
  {
    var s, s', e := Last(r.before), r.state, r.event;
    RunsKeepInvariant(codec, r.before);
    if e.Worker? && e.i == i {
      ClassStepIsDirect(codec, s, i, e.action, s');
    } else {
      OtherWorkerStays(codec, s, e, s', i);
      RefusalsAreDirect(codec, r.before, i);
    }
  }

  /** A refused worker not moved by this step was refused before it, in the same cycle. */
  lemma OtherWorkerStays(codec: Codec, s: State, e: Event, s': State, i: nat)
    requires Next(codec, s, e) == Some(s') && s'.running && i < |s'.phases| && !(e.Worker? && e.i == i)
    requires s'.phases[i].Done?
    ensures s.running && !e.Begin? && s'.jobs == s.jobs && s'.classes == s.classes
    ensures i < |s.phases| && s'.phases[i] == s.phases[i]
  {
  }

  /** What each guard and the expansion do to a worker is what they do to a single reconcile. */
  lemma StepFollowsReconcile(codec: Codec, s: State, i: nat, action: Action, s': State)
    requires Next(codec, s, Worker(i, action)) == Some(s')
    ensures i < |s.phases| && i < |s.jobs| && i < |s'.phases|
    ensures var job, from, to := s.jobs[i], s.phases[i], s'.phases[i];
            var eligible := job.phase == Bound && (job.volumeMode.None? || job.volumeMode == Some(Filesystem));
            && (from.Entered? ==> action.Resolve?)
            && (from.Entered? ==>
                to == if action.config.None? then Done(Unmanaged)
                      else if eligible then AskingClass(action.config.value) else Done(NotEligible))
            && (from.ClassPassed? ==> action.Guard? && GuardEnds(codec, s.dryRun, from.config, job, action, to))
            && (from.Expanding? ==> action.Attempt? && AttemptEnds(codec, s.dryRun, from.config, job, action, to))
            && (from.OverLimitCounted? ==> to == Done(Failed(OverLimit)))
  {
    var job, from := s.jobs[i], s.phases[i];
    if from.ClassPassed? {
      GuardFollowsReconcile(codec, s, job, from.config, action);
    } else if from.Expanding? {
      AttemptFollowsReconcile(codec, s, job, from.config, action);
    }
  }

  /** The worker ends as the reconcile does, or goes on to the expansion. */
  predicate GuardEnds(codec: Codec, dryRun: bool, config: PvcConfig, job: Pvc, action: Action, to: Phase)
    requires action.Guard?
  {
    var exit := EndAfterClass(codec, config, job, action.now, action.vm, dryRun, true);
    to == if Attempted(exit) then Expanding(config) else Done(exit)
  }

  /** The worker ends as the expansion does, counting a size over the limit first. */
  predicate AttemptEnds(codec: Codec, dryRun: bool, config: PvcConfig, job: Pvc, action: Action, to: Phase)
    requires action.Attempt?
  {
    var exit := EndOfExpansion(codec, config, job, dryRun, action.accepted);
    to == if exit == Failed(OverLimit) then OverLimitCounted else Done(exit)
  }

  lemma GuardFollowsReconcile(codec: Codec, s: State, job: Pvc, config: PvcConfig, action: Action)
    requires Act(codec, s, job, ClassPassed(config), action).Some?
    ensures action.Guard?
    ensures GuardEnds(codec, s.dryRun, config, job, action, Act(codec, s, job, ClassPassed(config), action).value.to)
  {
    LateGuardsMean(codec, config, job, action.now, action.vm, s.dryRun, true);
  }

  lemma AttemptFollowsReconcile(codec: Codec, s: State, job: Pvc, config: PvcConfig, action: Action)
    requires Act(codec, s, job, Expanding(config), action).Some?
    ensures action.Attempt?
    ensures AttemptEnds(codec, s.dryRun, config, job, action, Act(codec, s, job, Expanding(config), action).value.to)
  {
  }

  /** getFilesystemType for a named class. */
  function FsAnswer(s: State, name: string): string {
    if name in s.fsTypes then s.fsTypes[name] else DEFAULT_FS_TYPE
  }

  /** A worker past the class guard, which is where the file-system type is asked for, names a
      class and gets its true type, except for the default while another worker's lookup of
      the same class is between its two stores. */
  lemma {:induction false} FsTypeAnswers(codec: Codec, r: Run, i: nat)
    requires IsRun(codec, r) && Last(r).running
    requires i < |Last(r).phases| && i < |Last(r).jobs| && Last(r).phases[i].ClassPassed?
    ensures var s, class_ := Last(r), Last(r).jobs[i].className;
            && class_.Some? && class_.value in s.classes
            && (FsAnswer(s, class_.value) == FsType(s.classes[class_.value])
                || (class_.value in BetweenStores(s.phases) && FsAnswer(s, class_.value) == DEFAULT_FS_TYPE))
  {
    RunsKeepInvariant(codec, r);
    assert ClassCached(Last(r).flags, Last(r).jobs[i], Last(r).phases[i]);
  }

  // ---- Every cycle ends ----

  /** How many actions a worker can still take. */
  function Remaining(p: Phase): nat {
    match p
    case Waiting => 9
    case Entered => 8
    case AskingClass(_) => 7
    case Fetching(_, _) => 6
    case StoringFlag(_, _, _) => 5
    case StoringFsType(_, _, _) => 4
    case ClassPassed(_) => 3
    case Expanding(_) => 2
    case OverLimitCounted => 1
    case Done(_) => 0
  }

  function TotalRemaining(ps: seq<Phase>): nat {
    if ps == [] then 0 else Remaining(ps[0]) + TotalRemaining(ps[1..])
  }

  /** The steps left before the cycle ends. */
  function Measure(s: State): nat
    requires |s.phases| <= |s.jobs|
  {
    (if s.running then 1 else 0) + 10 * (|s.jobs| - |s.phases|) + TotalRemaining(s.phases)
  }

  lemma {:induction false} TotalUpdate(ps: seq<Phase>, i: nat, p: Phase)
    requires i < |ps|
    ensures TotalRemaining(ps[i := p]) + Remaining(ps[i]) == TotalRemaining(ps) + Remaining(p)
  {
    if i == 0 {
      assert ps[0 := p][1..] == ps[1..];
    } else {
      TotalUpdate(ps[1..], i - 1, p);
      assert ps[i := p][1..] == ps[1..][i - 1 := p];
    }
  }

  lemma {:induction false} TotalAppend(ps: seq<Phase>, p: Phase)
    ensures TotalRemaining(ps + [p]) == TotalRemaining(ps) + Remaining(p)
  {
    if ps == [] {
      assert [p][1..] == [];
    } else {
      TotalAppend(ps[1..], p);
      assert (ps + [p])[1..] == ps[1..] + [p];
    }
  }

  lemma ActAdvances(codec: Codec, s: State, job: Pvc, from: Phase, action: Action)
    requires Act(codec, s, job, from, action).Some?
    ensures Remaining(Act(codec, s, job, from, action).value.to) < Remaining(from)
  {
    if from.Expanding? && action.Attempt? {
      AttemptLeavesCache(codec, s, job, from.config, action.accepted);
    }
  }

  /** Every step of a running cycle uses up the measure, so no schedule runs forever and no
      PVC is reconciled twice. */
  lemma StepsUseUpTheCycle(codec: Codec, s: State, e: Event, s': State)
    requires s.running && |s.phases| <= |s.jobs| && Next(codec, s, e) == Some(s')
    ensures |s'.phases| <= |s'.jobs| && Measure(s') < Measure(s)
  {
    if e.Spawn? {
      TotalAppend(s.phases, Waiting);
    } else if e.Worker? {
      ActAdvances(codec, s, s.jobs[e.i], s.phases[e.i], e.action);
      TotalUpdate(s.phases, e.i, s'.phases[e.i]);
    }
  }

  /** A PVC that has its exit keeps it until the cycle ends. */
  lemma ExitsAreFinal(codec: Codec, s: State, e: Event, s': State, i: nat)
    requires s.running && Next(codec, s, e) == Some(s') && i < |s.phases| && s.phases[i].Done?
    ensures i < |s'.phases| && s'.phases[i] == s.phases[i]
  {
    if e.Worker? && e.i == i {
      assert false;
    }
  }

  /** The action a worker that holds a slot can always take. */
  function NextAction(p: Phase): Action
    requires Holding(p)
  {
    match p
    case Entered => Resolve(None)
    case AskingClass(_) => AskClass
    case Fetching(_, _) => FetchClass(false)
    case StoringFlag(_, _, _) => StoreFlag
    case StoringFsType(_, _, _) => StoreFsType
    case ClassPassed(_) => Guard(0, None)
    case Expanding(_) => Attempt(false)
    case OverLimitCounted => CountFailure
  }

  lemma HolderCanAct(codec: Codec, s: State, job: Pvc, p: Phase)
    requires Holding(p)
    ensures Act(codec, s, job, p, NextAction(p)).Some?
  {
    if p.Expanding? {
      AttemptLeavesCache(codec, s, job, p.config, false);
    }
  }

  /** A running cycle is never stuck, whatever the pool size. */
  lemma NeverStuck(codec: Codec, r: Run) returns (e: Event)
    requires IsRun(codec, r) && Last(r).running
    ensures !e.Begin? && !e.BeginFailed? && Next(codec, Last(r), e).Some?
  {
    var s := Last(r);
    RunsKeepInvariant(codec, r);
    if |s.phases| < |s.jobs| {
      e := Spawn;
    } else if AllDone(s) {
      e := End;
    } else if Count(s.phases, Holding) > 0 {
      var i := CountSome(s.phases, Holding);
      HolderCanAct(codec, s, s.jobs[i], s.phases[i]);
      e := Worker(i, NextAction(s.phases[i]));
    } else {
      var i :| 0 <= i < |s.phases| && !s.phases[i].Done?;
      if Holding(s.phases[i]) {
        SomeCounted(s.phases, i, Holding);
      }
      e := Worker(i, Acquire);
    }
  }

  lemma {:induction false} SomeCounted(ps: seq<Phase>, i: nat, f: Phase -> bool)
    requires i < |ps| && f(ps[i])
    ensures Count(ps, f) > 0
  {
    if i > 0 {
      SomeCounted(ps[1..], i - 1, f);
    }
  }

  /** A waiting worker gets in exactly while fewer than max PVCs are inside. */
  lemma EntersIff(codec: Codec, s: State, i: nat)
    requires s.running && i < |s.phases| && i < |s.jobs| && s.phases[i].Waiting?
    ensures Next(codec, s, Worker(i, Acquire)).Some? <==> Count(s.phases, Holding) < s.max
  {
  }

  /** A cycle whose list or metrics fetch fails reconciles nothing and leaves the caches empty. */
  lemma FailedCycleOnlyClears(codec: Codec, s: State)
    requires !s.running
    ensures Next(codec, s, BeginFailed).Some?
    ensures var s' := Next(codec, s, BeginFailed).value;
            && s'.flags == map[] && s'.fsTypes == map[] && !s'.running
            && s'.jobs == s.jobs && s'.phases == s.phases && s'.counters == s.counters
  {
  }

  function Extended(codec: Codec, r: Run, e: Event): (r': Run)
    requires IsRun(codec, r) && Next(codec, Last(r), e).Some?
    ensures IsRun(codec, r') && Last(r') == Next(codec, Last(r), e).value
  {
    Then(r, e, Next(codec, Last(r), e).value)
  }

  /** A running cycle has a next step, which works on the same jobs and uses up the measure. */
  lemma CycleStep(codec: Codec, r: Run) returns (next: Run)
    requires IsRun(codec, r) && Last(r).running && |Last(r).phases| <= |Last(r).jobs|
    ensures IsRun(codec, next) && Last(next).jobs == Last(r).jobs && |Last(next).phases| <= |Last(next).jobs|
    ensures Measure(Last(next)) < Measure(Last(r))
  {
    var e := NeverStuck(codec, r);
    next := Extended(codec, r, e);
    StepsUseUpTheCycle(codec, Last(r), e, Last(next));
    JobsStay(codec, Last(r), e, Last(next));
  }

  lemma JobsStay(codec: Codec, s: State, e: Event, s': State)
    requires Next(codec, s, e) == Some(s') && !e.Begin?
    ensures s'.jobs == s.jobs
  {
  }

  /** Every cycle can be brought to its end. */
  lemma {:induction false} CycleCompletes(codec: Codec, r: Run) returns (r': Run)
    requires IsRun(codec, r) && |Last(r).phases| <= |Last(r).jobs|
    ensures IsRun(codec, r') && !Last(r').running && AllDone(Last(r')) && Last(r').jobs == Last(r).jobs
    decreases Measure(Last(r))
  {
    if Last(r).running {
      var next := CycleStep(codec, r);
      r' := CycleCompletes(codec, next);
    } else {
      RunsKeepInvariant(codec, r);
      r' := r;
    }
  }

  /** Between cycles a cycle over any PVCs can begin, with empty caches, and end with each of
      them reconciled. */
  lemma AnyCycleRuns(codec: Codec, r: Run, jobs: seq<Pvc>) returns (begun: Run, ended: Run)
    requires IsRun(codec, r) && !Last(r).running
    ensures IsRun(codec, begun) && Last(begun).running && Last(begun).jobs == jobs && Last(begun).phases == []
    ensures Last(begun).flags == map[] && Last(begun).fsTypes == map[] && Last(begun).counters == Last(r).counters
    ensures IsRun(codec, ended) && !Last(ended).running && Last(ended).jobs == jobs && AllDone(Last(ended))
  {
    begun := Extended(codec, r, Begin(jobs));
    ended := CycleCompletes(codec, begun);
  }
}
