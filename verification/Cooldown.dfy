/** Cooldown over whole runs: two expansions of a PVC are never stamped closer than its
    cooldown less one second, however stale the copies and however many the writers. */
module Cooldown {
  import opened Kube
  import opened Annotations
  import opened ApiServer
  import opened Cluster

  /** The time a stamp written at `at` reads back as: RFC 3339 without fractions. */
  function StampOf(at: int): int {
    at - at % SECOND
  }

  /** When the expansions of one PVC were stamped, in order. */
  function ExpansionsOf(log: seq<Expansion>, p: Key): seq<int> {
    if log == [] then []
    else
      var last := log[|log| - 1];
      ExpansionsOf(log[..|log| - 1], p) + if last.key == p then [last.at] else []
  }

  /** The annotations configure the PVC, with this cooldown. */
  predicate ConfiguredBy(c: Settings, pvc: Pvc, cooldown: int) {
    var parsed := ParsePVCAnnotations(c.codec, pvc.annotations, c.global);
    !ExplicitlyDisabled(pvc.annotations) && parsed.Ok? && parsed.value.cooldown == cooldown
  }

  predicate Configures(c: Settings, s: State, p: Key, cooldown: int) {
    p in s.api.pvcs ==> ConfiguredBy(c, s.api.pvcs[p], cooldown)
  }

  /** Nobody but the expander touches the last-expansion annotation of p. */
  predicate LeavesStamp(s: State, e: Event, p: Key) {
    && (e.Remove? ==> e.key != p)
    && (e.Edit? && e.key == p && p in s.api.pvcs ==>
          Lookup(e.pvc.annotations, LAST_EXPANSION) == Lookup(s.api.pvcs[p].annotations, LAST_EXPANSION))
  }

  /** The clock shows dates that can be stamped, the annotations keep configuring p with this
      cooldown, and its stamp is left alone. */
  predicate Undisturbed(c: Settings, r: Run, p: Key, cooldown: int) {
    match r
    case Start(s) => IsTime(s.clock) && Configures(c, s, p, cooldown)
    case Then(before, e, s) =>
      && Undisturbed(c, before, p, cooldown)
      && IsTime(s.clock) && Configures(c, s, p, cooldown) && LeavesStamp(Last(before), e, p)
  }

  /** The last expansion a copy records. */
  function Recorded(c: Settings, pvc: Pvc): Option<int> {
    if LAST_EXPANSION in pvc.annotations then c.codec.parseTime(pvc.annotations[LAST_EXPANSION]) else None
  }

  /** Later expansions come at least the cooldown after the stamp of any earlier one. */
  predicate Spaced(times: seq<int>, cooldown: int) {
    forall i, j :: 0 <= i < j < |times| ==> times[i] <= times[j] && times[j] >= StampOf(times[i]) + cooldown
  }

  /** Time t is late enough for the next expansion. */
  predicate LateEnough(times: seq<int>, cooldown: int, t: int) {
    times != [] ==> t >= times[|times| - 1] && t >= StampOf(times[|times| - 1]) + cooldown
  }

  /** A worker whose copy is still current read the current stamp, and if it passed the guards
      it did so late enough. */
  ghost predicate WorkerPaced(c: Settings, s: State, p: Key, cooldown: int, x: Worker) {
    x.key == p && IsCurrent(s.api.pvcs, p, x.snap) ==>
      && x.config.cooldown == cooldown
      && x.config.lastExpansion == Recorded(c, x.snap)
      && (!x.Configured? ==>
          x.at <= s.clock && IsTime(x.at) && LateEnough(ExpansionsOf(s.expansions, p), cooldown, x.at))
  }

  /** The object of p carries the stamp of its last expansion. */
  predicate StampIsLast(c: Settings, s: State, p: Key) {
    var times := ExpansionsOf(s.expansions, p);
    times != [] ==>
      && times[|times| - 1] <= s.clock && IsTime(times[|times| - 1])
      && p in s.api.pvcs
      && Lookup(s.api.pvcs[p].annotations, LAST_EXPANSION) == Some(c.codec.formatTime(times[|times| - 1]))
  }

  ghost predicate Paced(c: Settings, s: State, p: Key, cooldown: int) {
    && Spaced(ExpansionsOf(s.expansions, p), cooldown)
    && StampIsLast(c, s, p)
    && forall w :: w in s.workers ==> WorkerPaced(c, s, p, cooldown, s.workers[w])
  }

  lemma ConfigReadsStamp(c: Settings, policies: map<string, seq<Policy>>, key: Key, pvc: Pvc, cooldown: int)
    requires ConfiguredBy(c, pvc, cooldown)
    ensures ConfigOf(c, policies, key, pvc).Ok?
    ensures ConfigOf(c, policies, key, pvc).value.cooldown == cooldown
    ensures ConfigOf(c, policies, key, pvc).value.lastExpansion == Recorded(c, pvc)
  {
  }

  lemma StampMonotone(a: int, b: int)
    requires a <= b
    ensures StampOf(a) <= StampOf(b)
  {
    assert a == a / SECOND * SECOND + a % SECOND && b == b / SECOND * SECOND + b % SECOND;
  }

  lemma SpacedAppend(times: seq<int>, cooldown: int, t: int)
    requires Spaced(times, cooldown) && LateEnough(times, cooldown, t)
    ensures Spaced(times + [t], cooldown)
  {
    var n := |times|;
    forall i | 0 <= i < n
      ensures times[i] <= t && t >= StampOf(times[i]) + cooldown
    {
      StampMonotone(times[i], times[n - 1]);
    }
  }

  lemma ExpansionsOfAppend(log: seq<Expansion>, x: Expansion, p: Key)
    ensures ExpansionsOf(log + [x], p) == ExpansionsOf(log, p) + if x.key == p then [x.at] else []
  {
    assert (log + [x])[..|log|] == log;
  }

  // ---- Steps that leave the workers and the log alone ----

  /** The stored object of p keeps its stamp unless the expander writes it. */
  lemma StampSurvives(c: Settings, s: State, e: Event, s': State, p: Key)
    requires Versioned(s) && Next(c, s, e) == Some(s') && LeavesStamp(s, e, p) && p in s.api.pvcs
    requires !(e.Send? && s.workers[e.w].key == p)
    ensures p in s'.api.pvcs
    ensures Lookup(s'.api.pvcs[p].annotations, LAST_EXPANSION) == Lookup(s.api.pvcs[p].annotations, LAST_EXPANSION)
  {
    StepStores(c, s, e, s');
    if e.Raise? && e.key == p {
      assert ListingVersioned(s.api, e.group, s.control.processing[e.group]);
      CurrentCopyIsTheObject(s.api, p, s.control.processing[e.group].listed[p]);
    }
  }

  predicate MovesWorkers(e: Event) {
    e.StartWorker? || e.PassGuards? || e.BuildUpdate? || e.Send? || e.DropWorker?
  }

  lemma OtherStepsFrame(c: Settings, s: State, e: Event, s': State)
    requires Next(c, s, e) == Some(s') && !MovesWorkers(e)
    ensures s'.workers == s.workers && s'.expansions == s.expansions && s.clock <= s'.clock
  {
  }

  lemma OtherStepKeepsPaced(c: Settings, s: State, e: Event, s': State, p: Key, cooldown: int)
    requires Versioned(s) && Paced(c, s, p, cooldown) && Next(c, s, e) == Some(s') && !MovesWorkers(e)
             && LeavesStamp(s, e, p)
    ensures Paced(c, s', p, cooldown)
  {
    OtherStepsFrame(c, s, e, s');
    if p in s.api.pvcs {
      StampSurvives(c, s, e, s', p);
    }
    forall w | w in s'.workers
      ensures WorkerPaced(c, s', p, cooldown, s'.workers[w])
    {
      var x := s.workers[w];
      assert WorkerPaced(c, s, p, cooldown, x);
      if x.key == p && IsCurrent(s'.api.pvcs, p, x.snap) {
        CurrencyComesFromBefore(c, s, e, s', p, x.snap);
      }
    }
  }

  // ---- The expander's local steps ----

  lemma ResolvedIsPaced(c: Settings, s: State, version: nat, p: Key, cooldown: int)
    requires Versioned(s) && Configures(c, s, p, cooldown) && Resolve(c, s, version).Some?
    ensures WorkerPaced(c, s, p, cooldown, Resolve(c, s, version).value)
  {
    var x := Resolve(c, s, version).value;
    if x.key == p && IsCurrent(s.api.pvcs, p, x.snap) {
      CurrentCopyIsTheObject(s.api, p, x.snap);
      ConfigReadsStamp(c, s.policies, p, x.snap, cooldown);
    }
  }

  lemma GuardedIsPaced(c: Settings, s: State, p: Key, cooldown: int, x: Worker)
    requires TimesRoundTrip(c.codec) && IsTime(s.clock) && Versioned(s) && Known(s.api, x.key, x.snap)
    requires StampIsLast(c, s, p) && WorkerPaced(c, s, p, cooldown, x) && Guarded(x, s.clock).Some?
    ensures WorkerPaced(c, s, p, cooldown, Guarded(x, s.clock).value)
  {
    var times := ExpansionsOf(s.expansions, p);
    if x.key == p && IsCurrent(s.api.pvcs, p, x.snap) && times != [] {
      CurrentCopyIsTheObject(s.api, p, x.snap);
      var t: int := times[|times| - 1];
      assert c.codec.parseTime(c.codec.formatTime(t)) == Some(t - t % SECOND);
      assert x.config.lastExpansion == Some(StampOf(t));
    }
  }

  lemma BuiltIsPaced(c: Settings, s: State, p: Key, cooldown: int, x: Worker)
    requires WorkerPaced(c, s, p, cooldown, x) && IsTime(s.clock) && Built(c, x, s.clock).Some?
    ensures WorkerPaced(c, s, p, cooldown, Built(c, x, s.clock).value)
  {
  }

  lemma DecisionsArePaced(c: Settings, s: State, version: nat, p: Key, cooldown: int, w: nat, x': Worker)
    requires TimesRoundTrip(c.codec) && IsTime(s.clock) && Versioned(s) && Configures(c, s, p, cooldown)
             && Paced(c, s, p, cooldown)
    requires Stems(c, s, version, w, x')
    ensures WorkerPaced(c, s, p, cooldown, x')
  {
    if w in s.workers {
      var x := s.workers[w];
      assert WorkerPaced(c, s, p, cooldown, x);
      if Some(x') == Guarded(x, s.clock) {
        GuardedIsPaced(c, s, p, cooldown, x);
      } else if Some(x') == Built(c, x, s.clock) {
        BuiltIsPaced(c, s, p, cooldown, x);
      }
    } else {
      ResolvedIsPaced(c, s, version, p, cooldown);
    }
  }

  /** The expander's own decisions change nothing but its workers. */
  lemma LocalStepFrame(c: Settings, s: State, e: Event, s': State)
    requires Next(c, s, e) == Some(s') && MovesWorkers(e) && !e.Send?
    ensures s' == s.(workers := s'.workers)
  {
  }

  lemma LocalStepKeepsPaced(c: Settings, s: State, e: Event, s': State, p: Key, cooldown: int)
    requires TimesRoundTrip(c.codec) && IsTime(s.clock) && Versioned(s) && Configures(c, s, p, cooldown)
             && Paced(c, s, p, cooldown)
    requires Next(c, s, e) == Some(s') && MovesWorkers(e) && !e.Send?
    ensures Paced(c, s', p, cooldown)
  {
    LocalStepFrame(c, s, e, s');
    forall w | w in s'.workers
      ensures WorkerPaced(c, s', p, cooldown, s'.workers[w])
    {
      WorkerOrigin(c, s, e, s', w);
      DecisionsArePaced(c, s, if e.StartWorker? then e.version else 0, p, cooldown, w, s'.workers[w]);
      assert WorkerPaced(c, s, p, cooldown, s'.workers[w]);
    }
  }

  // ---- The expander's write ----

  lemma SendFrame(c: Settings, s: State, w: nat, s': State)
    requires Next(c, s, Send(w)) == Some(s')
    ensures w in s.workers && s.workers[w].Sending? && IsCurrent(s.api.pvcs, s.workers[w].key, s.workers[w].snap)
    ensures s' == s.(api := Store(s.api, s.workers[w].key, Sent(c, s.workers[w])), workers := s.workers - {w},
                     expansions := s.expansions + [Expansion(s.workers[w].key, s.workers[w].at)])
  {
  }

  /** The write goes through only late enough, and it leaves its own stamp. */
  lemma SendIsSpaced(c: Settings, s: State, w: nat, s': State, p: Key, cooldown: int)
    requires Versioned(s) && Paced(c, s, p, cooldown) && Next(c, s, Send(w)) == Some(s')
    ensures Spaced(ExpansionsOf(s'.expansions, p), cooldown) && StampIsLast(c, s', p)
  {
    SendFrame(c, s, w, s');
    var x := s.workers[w];
    assert WorkerPaced(c, s, p, cooldown, x);
    ExpansionsOfAppend(s.expansions, Expansion(x.key, x.at), p);
    if x.key == p {
      SpacedAppend(ExpansionsOf(s.expansions, p), cooldown, x.at);
    }
  }

  /** The write outdates every other copy of its object. */
  lemma SendOutdatesWorkers(c: Settings, s: State, w: nat, s': State, p: Key, cooldown: int, y: Worker)
    requires StoreVersioned(s.api) && Known(s.api, y.key, y.snap) && WorkerPaced(c, s, p, cooldown, y)
    requires Next(c, s, Send(w)) == Some(s')
    ensures WorkerPaced(c, s', p, cooldown, y)
  {
    SendFrame(c, s, w, s');
    ExpansionsOfAppend(s.expansions, Expansion(s.workers[w].key, s.workers[w].at), p);
    if y.key == p && IsCurrent(s'.api.pvcs, p, y.snap) {
      CurrencyComesFromBefore(c, s, Send(w), s', p, y.snap);
    }
  }

  lemma SendKeepsPaced(c: Settings, s: State, w: nat, s': State, p: Key, cooldown: int)
    requires Versioned(s) && Paced(c, s, p, cooldown) && Next(c, s, Send(w)) == Some(s')
    ensures Paced(c, s', p, cooldown)
  {
    SendIsSpaced(c, s, w, s', p, cooldown);
    SendFrame(c, s, w, s');
    forall v | v in s'.workers
      ensures WorkerPaced(c, s', p, cooldown, s'.workers[v])
    {
      assert WorkerPaced(c, s, p, cooldown, s.workers[v]);
      SendOutdatesWorkers(c, s, w, s', p, cooldown, s.workers[v]);
    }
  }

  lemma {:induction false} RunsStayPaced(c: Settings, r: Run, p: Key, cooldown: int)
    requires IsRun(c, r) && Undisturbed(c, r, p, cooldown) && TimesRoundTrip(c.codec)
    ensures Versioned(Last(r)) && Paced(c, Last(r), p, cooldown)
  {
    if r.Then? {
      var s, e := Last(r.before), r.event;
      RunsStayPaced(c, r.before, p, cooldown);
      VersionedStep(c, s, e, r.state);
      UndisturbedNow(c, r.before, p, cooldown);
      if e.Send? {
        SendKeepsPaced(c, s, e.w, r.state, p, cooldown);
      } else if MovesWorkers(e) {
        LocalStepKeepsPaced(c, s, e, r.state, p, cooldown);
      } else {
        OtherStepKeepsPaced(c, s, e, r.state, p, cooldown);
      }
    }
  }

  lemma UndisturbedNow(c: Settings, r: Run, p: Key, cooldown: int)
    requires Undisturbed(c, r, p, cooldown)
    ensures IsTime(Last(r).clock) && Configures(c, Last(r), p, cooldown)
  {
  }

  /** For a PVC configured by annotations with a constant cooldown, whose stamp nobody else
      edits, any two expansions are stamped more than the cooldown less one second apart. */
  lemma ExpansionsAreSpaced(c: Settings, r: Run, p: Key, cooldown: int, i: nat, j: nat)
    requires IsRun(c, r) && Undisturbed(c, r, p, cooldown) && TimesRoundTrip(c.codec)
    requires i < j < |ExpansionsOf(Last(r).expansions, p)|
    ensures var times := ExpansionsOf(Last(r).expansions, p);
            StampOf(times[j]) - StampOf(times[i]) > cooldown - SECOND
  {
    RunsStayPaced(c, r, p, cooldown);
    var times := ExpansionsOf(Last(r).expansions, p);
    assert times[j] >= StampOf(times[i]) + cooldown;
  }

  /** Hence a bound on the expansions in any window: n + 1 of them span at least n times the
      cooldown less one second. */
  lemma {:induction false} WindowIsBounded(c: Settings, r: Run, p: Key, cooldown: int, i: nat, n: nat)
    requires IsRun(c, r) && Undisturbed(c, r, p, cooldown) && TimesRoundTrip(c.codec)
    requires i + n < |ExpansionsOf(Last(r).expansions, p)|
    ensures var times := ExpansionsOf(Last(r).expansions, p);
            StampOf(times[i + n]) - StampOf(times[i]) >= n * (cooldown - SECOND)
    decreases n
  {
    if n > 0 {
      WindowIsBounded(c, r, p, cooldown, i, n - 1);
      ExpansionsAreSpaced(c, r, p, cooldown, i + n - 1, i + n);
      assert n * (cooldown - SECOND) == (n - 1) * (cooldown - SECOND) + (cooldown - SECOND);
    }
  }
}
