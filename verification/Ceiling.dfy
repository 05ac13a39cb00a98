/** The ceiling under interleaving: requests of a group's members stay below the largest of
    their max-sizes, stale writers included. */
module Ceiling {
  import opened Kube
  import opened Annotations
  import opened ApiServer
  import opened Coordinator
  import opened Cluster

  /** Every member of g that resolves has a max-size, and it is at most `limit`. */
  ghost predicate MembersLimited(c: Settings, s: State, g: Key, limit: int) {
    forall k :: k in s.api.pvcs && MemberOf(k, s.api.pvcs[k], g) ==>
      HasLimit(ConfigOf(c, s.policies, k, s.api.pvcs[k]), limit)
  }

  predicate HasLimit(config: Result<PvcConfig, ResolveError>, limit: int) {
    config.Ok? ==> 0 < config.value.maxSize <= limit
  }

  /** Members start at or below the limit and nobody edits one above it. */
  predicate EditsWithin(e: Event, g: Key, limit: int) {
    e.Edit? && MemberOf(e.key, e.pvc, g) ==> e.pvc.request <= limit
  }

  ghost predicate Limited(c: Settings, r: Run, g: Key, limit: int) {
    match r
    case Start(s) => MembersLimited(c, s, g, limit) && StoredWithin(s.api, g, limit)
    case Then(before, e, s) =>
      Limited(c, before, g, limit) && MembersLimited(c, s, g, limit) && EditsWithin(e, g, limit)
  }

  /** No version ever stored for a member asks for more than the limit. */
  ghost predicate StoredWithin(api: Api, g: Key, limit: int) {
    forall v :: v in api.history && MemberOf(api.history[v].key, api.history[v].pvc, g) ==>
      api.history[v].pvc.request <= limit
  }

  /** A worker of a member whose copy is still current knows a limit, and no worker is about to
      exceed the max-size it knows. */
  predicate WorkerWithin(s: State, g: Key, limit: int, x: Worker) {
    && (IsCurrent(s.api.pvcs, x.key, x.snap) && MemberOf(x.key, x.snap, g) ==> 0 < x.config.maxSize <= limit)
    && (x.Sending? ==> !ExceedsMaxSize(x.config, x.size))
  }

  ghost predicate Capped(s: State, g: Key, limit: int) {
    && StoredWithin(s.api, g, limit)
    && forall w :: w in s.workers ==> WorkerWithin(s, g, limit, s.workers[w])
  }

  lemma StampKeepsMembership(c: Settings, key: Key, x: Worker, g: Key)
    requires x.Sending?
    ensures MemberOf(key, Sent(c, x), g) == MemberOf(key, x.snap, g)
  {
    KeysDistinct();
  }

  lemma OneGroupEach(key: Key, pvc: Pvc, g: Key, h: Key)
    requires MemberOf(key, pvc, g) && MemberOf(key, pvc, h)
    ensures g == h
  {
  }

  lemma SentIsWithin(c: Settings, s: State, w: nat, s': State, g: Key, limit: int)
    requires Capped(s, g, limit) && Next(c, s, Send(w)) == Some(s')
    ensures MemberOf(s.workers[w].key, Sent(c, s.workers[w]), g) ==> Sent(c, s.workers[w]).request <= limit
  {
    var x := s.workers[w];
    assert WorkerWithin(s, g, limit, x);
    StampKeepsMembership(c, x.key, x, g);
  }

  lemma RaisedIsWithin(c: Settings, s: State, h: Key, key: Key, g: Key, limit: int)
    requires Versioned(s) && StoredWithin(s.api, g, limit) && limit >= 0 && AtMember(s.control, h, key)
    ensures MemberOf(key, RaisedCopy(s.control, h, key), g) ==> RaisedCopy(s.control, h, key).request <= limit
  {
    var x := s.control.processing[h];
    assert ListingVersioned(s.api, h, x);
    assert MemberOf(key, x.listed[key], h);
    if MemberOf(key, RaisedCopy(s.control, h, key), g) {
      OneGroupEach(key, x.listed[key], g, h);
      forall k | k in x.listed
        ensures x.listed[k].request <= limit
      {
        assert Known(s.api, k, x.listed[k]) && MemberOf(k, x.listed[k], g);
      }
    }
  }

  lemma StoreStaysWithin(api: Api, key: Key, pvc: Pvc, g: Key, limit: int)
    requires StoredWithin(api, g, limit) && (MemberOf(key, pvc, g) ==> pvc.request <= limit)
    ensures StoredWithin(Store(api, key, pvc), g, limit)
  {
  }

  lemma StoresStayWithin(c: Settings, s: State, e: Event, s': State, g: Key, limit: int)
    requires Versioned(s) && Capped(s, g, limit) && limit >= 0 && Next(c, s, e) == Some(s') && EditsWithin(e, g, limit)
    ensures StoredWithin(s'.api, g, limit)
  {
    StepStores(c, s, e, s');
    if e.Send? {
      SentIsWithin(c, s, e.w, s', g, limit);
      StoreStaysWithin(s.api, s.workers[e.w].key, Sent(c, s.workers[e.w]), g, limit);
    } else if e.Raise? {
      RaisedIsWithin(c, s, e.group, e.key, g, limit);
      StoreStaysWithin(s.api, e.key, RaisedCopy(s.control, e.group, e.key), g, limit);
    } else if e.Edit? {
      StoreStaysWithin(s.api, e.key, e.pvc, g, limit);
    }
  }

  lemma ResolvedIsWithin(c: Settings, s: State, version: nat, g: Key, limit: int)
    requires Versioned(s) && MembersLimited(c, s, g, limit) && Resolve(c, s, version).Some?
    ensures WorkerWithin(s, g, limit, Resolve(c, s, version).value)
  {
    var x := Resolve(c, s, version).value;
    if IsCurrent(s.api.pvcs, x.key, x.snap) && MemberOf(x.key, x.snap, g) {
      CurrentCopyIsTheObject(s.api, x.key, x.snap);
      assert HasLimit(ConfigOf(c, s.policies, x.key, s.api.pvcs[x.key]), limit);
    }
  }

  lemma BuiltIsWithin(c: Settings, s: State, x: Worker, now: int, g: Key, limit: int)
    requires WorkerWithin(s, g, limit, x) && Built(c, x, now).Some?
    ensures WorkerWithin(s, g, limit, Built(c, x, now).value)
  {
  }

  lemma DecisionsAreWithin(c: Settings, s: State, version: nat, g: Key, limit: int, w: nat, x': Worker)
    requires Versioned(s) && Capped(s, g, limit) && MembersLimited(c, s, g, limit) && Stems(c, s, version, w, x')
    ensures WorkerWithin(s, g, limit, x')
  {
    if w in s.workers {
      var x := s.workers[w];
      assert WorkerWithin(s, g, limit, x);
      if Some(x') == Built(c, x, s.clock) {
        BuiltIsWithin(c, s, x, s.clock, g, limit);
      }
    } else {
      ResolvedIsWithin(c, s, version, g, limit);
    }
  }

  lemma WorkersStayWithin(c: Settings, s: State, e: Event, s': State, g: Key, limit: int, w: nat)
    requires Versioned(s) && Capped(s, g, limit) && MembersLimited(c, s, g, limit) && Next(c, s, e) == Some(s')
             && w in s'.workers
    ensures WorkerWithin(s', g, limit, s'.workers[w])
  {
    var x' := s'.workers[w];
    WorkerOrigin(c, s, e, s', w);
    DecisionsAreWithin(c, s, if e.StartWorker? then e.version else 0, g, limit, w, x');
    if s'.api != s.api && IsCurrent(s'.api.pvcs, x'.key, x'.snap) {
      CurrencyComesFromBefore(c, s, e, s', x'.key, x'.snap);
    }
  }

  lemma {:induction false} RunsStayCapped(c: Settings, r: Run, g: Key, limit: int)
    requires IsRun(c, r) && Limited(c, r, g, limit) && limit >= 0
    ensures Versioned(Last(r)) && Capped(Last(r), g, limit) && MembersLimited(c, Last(r), g, limit)
  {
    if r.Then? {
      var s, e := Last(r.before), r.event;
      RunsStayCapped(c, r.before, g, limit);
      VersionedStep(c, s, e, r.state);
      StoresStayWithin(c, s, e, r.state, g, limit);
      forall w | w in r.state.workers
        ensures WorkerWithin(r.state, g, limit, r.state.workers[w])
      {
        WorkersStayWithin(c, s, e, r.state, g, limit, w);
      }
    }
  }

  /** If the members of a group start at or below M, users keep their edits there, and every
      member resolves to a non-zero max-size of at most M, then no interleaving of expander and
      coordinator leaves a member's request above M. */
  lemma RequestsStayBelowCeiling(c: Settings, r: Run, g: Key, limit: int, key: Key)
    requires IsRun(c, r) && Limited(c, r, g, limit) && limit >= 0
    requires key in Members(Last(r).api.pvcs, g)
    ensures Last(r).api.pvcs[key].request <= limit
  {
    RunsStayCapped(c, r, g, limit);
    assert Known(Last(r).api, key, Last(r).api.pvcs[key]);
  }
}
