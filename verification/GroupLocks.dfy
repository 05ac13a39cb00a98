/** The per-group lock of the coordinator (statusLocks in
    internal/controller/pvcgroup_controller.go): a table of mutexes, one made on first use of a
    key, and dropped from the table when the group turns out to be gone. */
module GroupLocks {
  import opened Kube
  import Kubelet

  /** A group's key in the table: its namespaced name as a string. */
  function LockKey(group: Key): string {
    Kubelet.CacheKey(group)
  }

  datatype Point =
    | Waiting       // has loaded a mutex and is about to lock it
    | Inside        // holds it
    | Leaving       // holds it and found the group gone
    | Forgotten     // has deleted the table entry and still holds the mutex

  datatype Reconcile = Reconcile(group: Key, mutex: nat, at: Point)

  /** `made` lists the mutexes ever stored, each with the key it was made for. */
  datatype State = State(table: map<string, nat>, made: seq<string>, owner: map<nat, nat>, threads: map<nat, Reconcile>)

  datatype Event =
    | LoadOrStore(t: nat, group: Key)
    | Lock(t: nat)
    | NotFound(t: nat)
    | Delete(t: nat)      // deferred last, so it runs first
    | Unlock(t: nat)

  predicate Holds(x: Reconcile) {
    !x.at.Waiting?
  }

  /** Still has something to do under the lock. */
  predicate Working(x: Reconcile) {
    x.at.Inside? || x.at.Leaving?
  }

  function LoadNext(s: State, t: nat, group: Key): State {
    var key := LockKey(group);
    if key in s.table then s.(threads := s.threads[t := Reconcile(group, s.table[key], Waiting)])
    else
      s.(table := s.table[key := |s.made|], made := s.made + [key],
         threads := s.threads[t := Reconcile(group, |s.made|, Waiting)])
  }

  function Move(s: State, t: nat, to: Point): State
    requires t in s.threads
  {
    s.(threads := s.threads[t := s.threads[t].(at := to)])
  }

  /** The state after an event, None when the event cannot happen. */
  function Next(s: State, e: Event): Option<State> {
    if e.LoadOrStore? then
      if e.t in s.threads then None else Some(LoadNext(s, e.t, e.group))
    else if e.t !in s.threads then None
    else
      var x := s.threads[e.t];
      match (x.at, e)
      case (Waiting, Lock(t)) =>
        if x.mutex in s.owner then None else Some(Move(s, t, Inside).(owner := s.owner[x.mutex := t]))
      case (Inside, NotFound(t)) => Some(Move(s, t, Leaving))
      case (Leaving, Delete(t)) => Some(Move(s, t, Forgotten).(table := s.table - {LockKey(x.group)}))
      case (Inside, Unlock(t)) => Some(s.(owner := s.owner - {x.mutex}, threads := s.threads - {t}))
      case (Forgotten, Unlock(t)) => Some(s.(owner := s.owner - {x.mutex}, threads := s.threads - {t}))
      case _ => None
  }

  datatype Run = Start(first: State) | Then(before: Run, event: Event, state: State)

  function Last(r: Run): State {
    match r
    case Start(s) => s
    case Then(_, _, s) => s
  }

  function First(r: Run): State {
    match r
    case Start(s) => s
    case Then(before, _, _) => First(before)
  }

  predicate IsRun(r: Run) {
    match r
    case Start(_) => true
    case Then(before, e, s) => IsRun(before) && Next(Last(before), e) == Some(s)
  }

  const FRESH := State(map[], [], map[], map[])

  /** No reconcile of `key` finds its group gone. */
  predicate NeverGone(r: Run, key: string) {
    match r
    case Start(_) => true
    case Then(before, e, _) =>
      && NeverGone(before, key)
      && (e.NotFound? && e.t in Last(before).threads ==> LockKey(Last(before).threads[e.t].group) != key)
  }

  // ---- What every run keeps ----

  predicate TableSound(s: State) {
    forall key :: key in s.table ==> s.table[key] < |s.made| && s.made[s.table[key]] == key
  }

  predicate MutexSound(s: State, x: Reconcile) {
    x.mutex < |s.made| && s.made[x.mutex] == LockKey(x.group)
  }

  /** A mutex has the owner that holds it, and one owner only. */
  ghost predicate Sound(s: State) {
    && TableSound(s)
    && (forall t :: t in s.threads ==> MutexSound(s, s.threads[t]))
    && (forall t :: t in s.threads && Holds(s.threads[t]) ==>
        s.threads[t].mutex in s.owner && s.owner[s.threads[t].mutex] == t)
    && (forall m :: m in s.owner ==>
        s.owner[m] in s.threads && s.threads[s.owner[m]].mutex == m && Holds(s.threads[s.owner[m]]))
  }

  lemma LoadKeepsSound(s: State, t: nat, group: Key)
    requires Sound(s) && t !in s.threads
    ensures Sound(LoadNext(s, t, group))
  {
    var s' := LoadNext(s, t, group);
    assert TableSound(s') && MutexSound(s', s'.threads[t]);
    forall u | u in s.threads
      ensures s'.threads[u] == s.threads[u] && MutexSound(s', s'.threads[u])
    {
      assert MutexSound(s, s.threads[u]);
    }
  }

  lemma LockKeepsSound(s: State, t: nat, s': State)
    requires Sound(s) && Next(s, Lock(t)) == Some(s')
    ensures Sound(s')
  {
  }

  lemma UnlockKeepsSound(s: State, t: nat, s': State)
    requires Sound(s) && Next(s, Unlock(t)) == Some(s')
    ensures Sound(s')
  {
    assert s'.threads == s.threads - {t} && s'.owner == s.owner - {s.threads[t].mutex};
  }

  lemma LeavingKeepsSound(s: State, e: Event, s': State)
    requires Sound(s) && Next(s, e) == Some(s') && (e.NotFound? || e.Delete?)
    ensures Sound(s')
  {
    assert s'.owner == s.owner && s'.made == s.made;
  }

  lemma SoundStep(s: State, e: Event, s': State)
    requires Sound(s) && Next(s, e) == Some(s')
    ensures Sound(s')
  {
    match e
    case LoadOrStore(t, group) => LoadKeepsSound(s, t, group);
    case Lock(t) => LockKeepsSound(s, t, s');
    case Unlock(t) => UnlockKeepsSound(s, t, s');
    case _ => LeavingKeepsSound(s, e, s');
  }

  lemma {:induction false} RunsStaySound(r: Run)
    requires IsRun(r) && Sound(First(r))
    ensures Sound(Last(r))
  {
    if r.Then? {
      RunsStaySound(r.before);
      SoundStep(Last(r.before), r.event, r.state);
    }
  }

  /** A waiting reconcile is blocked exactly by another one of the same key that holds the
      mutex it loaded: reconciles of different keys never block each other. */
  lemma BlockedOnlyBySameKey(r: Run, t: nat)
    requires IsRun(r) && First(r) == FRESH
    requires t in Last(r).threads && Last(r).threads[t].at.Waiting?
    ensures Next(Last(r), Lock(t)).None? <==>
            exists u :: u in Last(r).threads && Holds(Last(r).threads[u])
                     && LockKey(Last(r).threads[u].group) == LockKey(Last(r).threads[t].group)
                     && Last(r).threads[u].mutex == Last(r).threads[t].mutex
  {
    RunsStaySound(r);
    var s := Last(r);
    var m := s.threads[t].mutex;
    if m in s.owner {
      assert MutexSound(s, s.threads[t]) && MutexSound(s, s.threads[s.owner[m]]);
    }
  }

  /** Groups of namespaces without a slash have keys of their own. */
  lemma LockKeyIsInjective(g: Key, h: Key)
    requires '/' !in g.namespace && '/' !in h.namespace
    ensures LockKey(g) == LockKey(h) <==> g == h
  {
    Kubelet.CacheKeyIsInjective(g, h);
  }

  /** Every holder can come to release its mutex, with at most a deletion before. */
  lemma HolderReleases(s: State, t: nat) returns (s': State, deleted: Option<State>)
    requires Sound(s) && t in s.threads && Holds(s.threads[t])
    ensures deleted.Some? <==> s.threads[t].at.Leaving?
    ensures deleted.Some? ==> Next(s, Delete(t)) == deleted && LockKey(s.threads[t].group) !in deleted.value.table
    ensures Next(if deleted.Some? then deleted.value else s, Unlock(t)) == Some(s')
    ensures t !in s'.threads && s.threads[t].mutex !in s'.owner
  {
    if s.threads[t].at.Leaving? {
      deleted := Next(s, Delete(t));
      s' := Next(deleted.value, Unlock(t)).value;
    } else {
      deleted := None;
      s' := Next(s, Unlock(t)).value;
    }
  }

  /** A reconcile loads the mutex of its key if there is one, and stores a new one if not. */
  lemma LoadsOrStores(s: State, t: nat, group: Key)
    requires TableSound(s) && t !in s.threads
    ensures Next(s, LoadOrStore(t, group)).Some?
    ensures var s' := Next(s, LoadOrStore(t, group)).value;
            && t in s'.threads && s'.threads[t].group == group && s'.threads[t].at.Waiting?
            && (LockKey(group) in s.table ==> s'.threads[t].mutex == s.table[LockKey(group)] && s'.table == s.table)
            && (LockKey(group) !in s.table ==>
                s'.threads[t].mutex !in s.table.Values && s'.table == s.table[LockKey(group) := s'.threads[t].mutex])
  {
  }

  // ---- One mutex per key, as long as no group is found gone ----

  /** The mutex of a reconcile is the one the table has for its key, and it is not on its way
      to delete it. */
  predicate UsesTable(table: map<string, nat>, x: Reconcile) {
    var key := LockKey(x.group);
    key in table && x.mutex == table[key] && (x.at.Waiting? || x.at.Inside?)
  }

  /** Every reconcile of `key` uses the mutex in the table, except for `but`, which have
      deleted an earlier entry and only have to unlock. */
  predicate OneMutex(s: State, key: string, but: set<nat>) {
    && (forall t :: t in s.threads && t !in but && LockKey(s.threads[t].group) == key ==>
        UsesTable(s.table, s.threads[t]))
    && (forall t :: t in but ==> t in s.threads && s.threads[t].at.Forgotten?)
  }

  predicate FindsGone(s: State, e: Event, key: string) {
    e.NotFound? && e.t in s.threads && LockKey(s.threads[e.t].group) == key
  }

  /** A step touches one reconcile, and the table at its key at most. */
  lemma StepFrame(s: State, e: Event, s': State)
    requires Next(s, e) == Some(s')
    ensures s'.threads - {e.t} == s.threads - {e.t}
    ensures e.t in s'.threads && e.t in s.threads ==> s'.threads[e.t] == s.threads[e.t].(at := s'.threads[e.t].at)
    ensures e.LoadOrStore? || e.Delete? || s'.table == s.table
    ensures e.Delete? ==>
              e.t in s.threads && s.threads[e.t].at.Leaving? && s'.table == s.table - {LockKey(s.threads[e.t].group)}
    ensures e.LoadOrStore? ==> e.t !in s.threads && e.t in s'.threads && UsesTable(s'.table, s'.threads[e.t])
    ensures e.LoadOrStore? ==> forall key :: key in s.table ==> key in s'.table && s'.table[key] == s.table[key]
    ensures !e.LoadOrStore? && e.t in s'.threads ==>
              e.t in s.threads && !s.threads[e.t].at.Forgotten?
                && (s.threads[e.t].at.Waiting? <==> s'.threads[e.t].at.Inside?)
              && (s'.threads[e.t].at.Leaving? <==> e.NotFound?)
  {
  }

  lemma ThreadsAfter(s: State, s': State, t: nat, u: nat)
    requires s'.threads - {t} == s.threads - {t} && u != t
    ensures u in s'.threads <==> u in s.threads
    ensures u in s.threads ==> s'.threads[u] == s.threads[u]
  {
    assert u in s.threads <==> u in s.threads - {t};
    assert u in s'.threads <==> u in s'.threads - {t};
    assert u in s.threads ==> (s.threads - {t})[u] == s.threads[u];
    assert u in s'.threads ==> (s'.threads - {t})[u] == s'.threads[u];
  }

  lemma OneMutexStep(s: State, e: Event, s': State, key: string, but: set<nat>)
    requires OneMutex(s, key, but) && Next(s, e) == Some(s') && !FindsGone(s, e, key)
    ensures OneMutex(s', key, but * s'.threads.Keys)
  {
    StepFrame(s, e, s');
    forall t | t in s'.threads && t !in but && LockKey(s'.threads[t].group) == key
      ensures UsesTable(s'.table, s'.threads[t])
    {
      if t != e.t {
        ThreadsAfter(s, s', e.t, t);
      }
      if t in s.threads {
        assert UsesTable(s.table, s.threads[t]);
      }
    }
    forall t | t in but && t in s'.threads
      ensures s'.threads[t].at.Forgotten?
    {
      if t != e.t {
        ThreadsAfter(s, s', e.t, t);
      }
    }
  }

  /** `but` may shrink as its reconciles unlock. */
  lemma {:induction false} RunsKeepOneMutex(r: Run, key: string, but: set<nat>) returns (left: set<nat>)
    requires IsRun(r) && NeverGone(r, key) && OneMutex(First(r), key, but)
    ensures OneMutex(Last(r), key, left) && left <= but
  {
    if r.Start? {
      left := but;
    } else {
      var before := RunsKeepOneMutex(r.before, key, but);
      OneMutexStep(Last(r.before), r.event, r.state, key, before);
      left := before * r.state.threads.Keys;
    }
  }

  /** Mutual exclusion per group: while no reconcile of a key finds its group gone, all its
      reconciles use one mutex and at most one of them is between lock and unlock. */
  lemma GroupsAreExclusive(r: Run, key: string, t: nat, u: nat)
    requires IsRun(r) && First(r) == FRESH && NeverGone(r, key)
    requires t in Last(r).threads && u in Last(r).threads
    requires LockKey(Last(r).threads[t].group) == key && LockKey(Last(r).threads[u].group) == key
    ensures Last(r).threads[t].mutex == Last(r).threads[u].mutex
    ensures Holds(Last(r).threads[t]) && Holds(Last(r).threads[u]) ==> t == u
  {
    RunsStaySound(r);
    var left := RunsKeepOneMutex(r, key, {});
    assert UsesTable(Last(r).table, Last(r).threads[t]) && UsesTable(Last(r).table, Last(r).threads[u]);
  }

  // ---- What deleting the entry before unlocking costs ----

  ghost predicate TwoWork(s: State, key: string) {
    exists t, u :: t != u && WorksOn(s, t, key) && WorksOn(s, u, key)
  }

  predicate WorksOn(s: State, t: nat, key: string) {
    t in s.threads && Working(s.threads[t]) && LockKey(s.threads[t].group) == key
  }

  predicate Uses(s: State, t: nat, key: string) {
    t in s.threads && LockKey(s.threads[t].group) == key
  }

  /** Two reconciles of `key` can come to work at the same time, without any further deletion. */
  ghost predicate CanSplit(s: State, key: string) {
    exists r :: IsRun(r) && First(r) == s && NeverGone(r, key) && TwoWork(Last(r), key)
  }

  lemma OneMutexNeverSplits(r: Run, key: string, but: set<nat>)
    requires IsRun(r) && Sound(First(r)) && NeverGone(r, key) && OneMutex(First(r), key, but)
    ensures !TwoWork(Last(r), key)
  {
    RunsStaySound(r);
    var left := RunsKeepOneMutex(r, key, but);
    var s := Last(r);
    forall t, u | WorksOn(s, t, key) && WorksOn(s, u, key)
      ensures t == u
    {
      assert UsesTable(s.table, s.threads[t]) && UsesTable(s.table, s.threads[u]);
    }
  }

  ghost function After(r: Run, e: Event): (r': Run)
    requires IsRun(r) && Next(Last(r), e).Some?
    ensures IsRun(r') && First(r') == First(r)
  {
    Then(r, e, Next(Last(r), e).value)
  }

  ghost function Extended(r: Run, e: Event, key: string): (r': Run)
    requires IsRun(r) && NeverGone(r, key) && Next(Last(r), e).Some? && !e.NotFound?
    ensures IsRun(r') && NeverGone(r', key) && First(r') == First(r)
  {
    After(r, e)
  }

  /** A newcomer stores a mutex of its own and joins the one at work. */
  lemma NewcomerSplits(r: Run, u: nat, key: string)
    requires IsRun(r) && Sound(Last(r)) && NeverGone(r, key) && WorksOn(Last(r), u, key) && key !in Last(r).table
    ensures CanSplit(First(r), key)
  {
    var s := Last(r);
    var v := Unused(s.threads);
    var loaded := Extended(r, LoadOrStore(v, s.threads[u].group), key);
    assert |s.made| !in Last(loaded).owner by {
      assert forall m :: m in s.owner ==> MutexSound(s, s.threads[s.owner[m]]);
    }
    var locked := Extended(loaded, Lock(v), key);
    assert WorksOn(Last(locked), u, key) && WorksOn(Last(locked), v, key);
  }

  /** With its mutex free, a waiting reconcile gets to work. */
  lemma WaiterSplits(r: Run, u: nat, key: string)
    requires IsRun(r) && Sound(Last(r)) && NeverGone(r, key) && Uses(Last(r), u, key) && key !in Last(r).table
    requires Last(r).threads[u].at.Waiting? && Last(r).threads[u].mutex !in Last(r).owner
    ensures CanSplit(First(r), key)
  {
    var locked := Extended(r, Lock(u), key);
    LockKeepsSound(Last(r), u, Last(locked));
    NewcomerSplits(locked, u, key);
  }

  /** Still has work to do or to wait for. */
  predicate StillUses(s: State, u: nat, key: string) {
    Uses(s, u, key) && !s.threads[u].at.Forgotten?
  }

  lemma StillUsedSplits(s: State, u: nat, key: string)
    requires Sound(s) && key !in s.table && StillUses(s, u, key)
    ensures CanSplit(s, key)
  {
    var m := s.threads[u].mutex;
    if Working(s.threads[u]) {
      NewcomerSplits(Start(s), u, key);
    } else if m !in s.owner {
      WaiterSplits(Start(s), u, key);
    } else {
      var w := s.owner[m];
      assert MutexSound(s, s.threads[w]) && MutexSound(s, s.threads[u]);
      if Working(s.threads[w]) {
        NewcomerSplits(Start(s), w, key);
      } else {
        var r := Extended(Start(s), Unlock(w), key);
        UnlockKeepsSound(s, w, Last(r));
        assert u in s.threads - {w} && m !in Last(r).owner;
        WaiterSplits(r, u, key);
      }
    }
  }

  lemma UnusedNeverSplits(s: State, key: string)
    requires Sound(s) && forall u :: !StillUses(s, u, key)
    ensures !CanSplit(s, key)
  {
    var but := set t | t in s.threads && LockKey(s.threads[t].group) == key;
    forall t | t in but
      ensures s.threads[t].at.Forgotten?
    {
      assert !StillUses(s, t, key);
    }
    forall r | IsRun(r) && First(r) == s && NeverGone(r, key)
      ensures !TwoWork(Last(r), key)
    {
      OneMutexNeverSplits(r, key, but);
    }
  }

  lemma DeletionFrame(s: State, t: nat, s': State)
    requires Next(s, Delete(t)) == Some(s')
    ensures LockKey(s.threads[t].group) !in s'.table
    ensures forall u, key :: StillUses(s', u, key) <==> u != t && StillUses(s, u, key)
  {
  }

  /** Deleting the entry before unlocking endangers the group exactly when another reconcile
      has loaded its mutex and not finished with it: then, and only then, two reconciles of
      the group can work at the same time later on, even if it is never found gone again. */
  lemma DeletionSplitsIff(r: Run, t: nat, s': State)
    requires IsRun(r) && First(r) == FRESH && Next(Last(r), Delete(t)) == Some(s')
    ensures var key := LockKey(Last(r).threads[t].group);
            CanSplit(s', key) <==> exists u :: u != t && StillUses(Last(r), u, key)
  {
    var key := LockKey(Last(r).threads[t].group);
    RunsStaySound(r);
    SoundStep(Last(r), Delete(t), s');
    DeletionFrame(Last(r), t, s');
    if u :| u != t && StillUses(Last(r), u, key) {
      StillUsedSplits(s', u, key);
    } else {
      UnusedNeverSplits(s', key);
    }
  }

  /** Two reconciles of one group, the first of which finds it gone and deletes the entry while
      the second waits: from there two of them can work at once. */
  lemma TwoReconcilesSplit(group: Key) returns (r: Run)
    ensures IsRun(r) && First(r) == FRESH && r.Then? && r.event == Delete(0)
    ensures StillUses(Last(r), 1, LockKey(group)) && CanSplit(Last(r), LockKey(group))
  {
    var key := LockKey(group);
    r := BothLoaded(group);
    r := After(r, Lock(0));
    assert Last(r).threads[1] == Reconcile(group, 0, Waiting);
    r := After(r, NotFound(0));
    var leaving := r;
    r := After(leaving, Delete(0));
    DeletionSplitsIff(leaving, 0, Last(r));
    assert StillUses(Last(leaving), 1, key);
  }

  /** A reconcile of `key` starts only when none is under way, as a work queue hands keys out. */
  ghost predicate OneAtATime(r: Run, key: string) {
    match r
    case Start(_) => true
    case Then(before, e, _) =>
      && OneAtATime(before, key)
      && (e.LoadOrStore? && LockKey(e.group) == key ==> forall t :: !Uses(Last(before), t, key))
  }

  /** Under a work queue the lock is not even needed: with or without deletions, no two
      reconciles of a key are under way at once. */
  lemma {:induction false} QueuedReconcilesNeverSplit(r: Run, key: string)
    requires IsRun(r) && First(r) == FRESH && OneAtATime(r, key)
    ensures forall t, u :: Uses(Last(r), t, key) && Uses(Last(r), u, key) ==> t == u
    ensures !TwoWork(Last(r), key)
  {
    if r.Then? {
      var s, s', e := Last(r.before), r.state, r.event;
      QueuedReconcilesNeverSplit(r.before, key);
      StepFrame(s, e, s');
      forall t, u | Uses(s', t, key) && Uses(s', u, key)
        ensures t == u
      {
        UserOrigin(s, e, s', t, key);
        UserOrigin(s, e, s', u, key);
      }
    }
    assert forall t :: WorksOn(Last(r), t, key) ==> Uses(Last(r), t, key);
  }

  lemma UserOrigin(s: State, e: Event, s': State, t: nat, key: string)
    requires Next(s, e) == Some(s') && Uses(s', t, key)
    ensures Uses(s, t, key) || (e.LoadOrStore? && e.t == t && LockKey(e.group) == key)
  {
    StepFrame(s, e, s');
    if t != e.t {
      ThreadsAfter(s, s', e.t, t);
    }
  }

  lemma BothLoaded(group: Key) returns (r: Run)
    ensures IsRun(r) && First(r) == FRESH && Last(r).owner == map[]
    ensures Last(r).threads == map[0 := Reconcile(group, 0, Waiting), 1 := Reconcile(group, 0, Waiting)]
  {
    r := After(Start(FRESH), LoadOrStore(0, group));
    r := After(r, LoadOrStore(1, group));
  }

  /** A reconcile id not in use. */
  lemma Unused(threads: map<nat, Reconcile>) returns (v: nat)
    ensures v !in threads
  {
    var ids := threads.Keys;
    v := 0;
    while ids != {}
      invariant forall t :: t in threads ==> t in ids || t < v
      decreases ids
    {
      var t :| t in ids;
      v := if t < v then v else t + 1;
      ids := ids - {t};
    }
  }
}
