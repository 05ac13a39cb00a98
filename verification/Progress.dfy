/** What the actors can get done: an expansion that every guard lets pass goes through, and so
    does a reconcile of a group that the informer shows as it is. */
module Progress {
  import opened Kube
  import opened Annotations
  import opened ApiServer
  import opened Coordinator
  import opened Expander
  import opened Cluster

  /** The events lead from s to s'. */
  ghost predicate Leads(c: Settings, s: State, events: seq<Event>, s': State)
    decreases |events|
  {
    if events == [] then s == s'
    else
      var next := Next(c, s, events[0]);
      next.Some? && Leads(c, next.value, events[1..], s')
  }

  lemma First(c: Settings, s: State, e: Event, t: State, rest: seq<Event>, s': State)
    requires Next(c, s, e) == Some(t) && Leads(c, t, rest, s')
    ensures Leads(c, s, [e] + rest, s')
  {
    assert ([e] + rest)[1..] == rest;
  }

  lemma {:induction false} LeadsOn(c: Settings, s: State, events: seq<Event>, s': State, e: Event, s'': State)
    requires Leads(c, s, events, s') && Next(c, s', e) == Some(s'')
    ensures Leads(c, s, events + [e], s'')
    decreases |events|
  {
    if events == [] {
      assert [] + [e] == [e] && [e][1..] == [];
    } else {
      LeadsOn(c, Next(c, s, events[0]).value, events[1..], s', e, s'');
      assert (events + [e])[0] == events[0] && (events + [e])[1..] == events[1..] + [e];
    }
  }

  // ---- An expansion ----

  /** Which copies the expander decides to expand: Bound, in file-system mode, without a resize
      under way, and out of the cooldown that the configuration gives. */
  lemma GuardsPassIff(x: Worker, now: int)
    ensures Guarded(x, now).Some? <==>
            && x.Configured?
            && x.snap.phase == Bound && (x.snap.volumeMode.None? || x.snap.volumeMode == Some(Filesystem))
            && !ResizeUnderWay(x.snap)
            && (x.config.lastExpansion.Some? ==> now >= x.config.lastExpansion.value + x.config.cooldown)
  {
    if x.Configured? {
      ResizingMeans(x.snap);
    }
  }

  /** Annotations that configure a claim do so whatever the policies; else the first matching
      policy of its namespace does. */
  lemma ConfigComesFrom(c: Settings, policies: map<string, seq<Policy>>, key: Key, pvc: Pvc)
    requires !ExplicitlyDisabled(pvc.annotations)
    ensures var parsed := ParsePVCAnnotations(c.codec, pvc.annotations, c.global);
            var own := if key.namespace in policies then policies[key.namespace] else [];
            && (parsed.Ok? ==> ConfigOf(c, policies, key, pvc) == Ok(parsed.value))
            && (parsed.Err? && FirstMatchingPolicy(own, pvc.labels).Ok? ==>
                var t := FirstMatchingPolicy(own, pvc.labels).value.template;
                ConfigOf(c, policies, key, pvc) == Ok(BuildConfigFromPolicy(c.codec, t, c.global)))
  {
  }

  /** The claim's current version resolves and passes every guard now. */
  ghost predicate CanBeExpanded(c: Settings, s: State, p: Key, config: PvcConfig, size: int) {
    && p in s.api.pvcs && Known(s.api, p, s.api.pvcs[p])
    && ConfigOf(c, s.policies, p, s.api.pvcs[p]) == Ok(config)
    && Guarded(Configured(p, s.api.pvcs[p], config), s.clock).Some?
    && NewSize(c.codec, config, s.api.pvcs[p]) == Ok(size)
  }

  /** Then four steps of a worker store its new size and the stamp of now, and nothing else of
      any claim changes. */
  lemma ExpansionGoesThrough(c: Settings, s: State, p: Key, config: PvcConfig, size: int, w: nat)
    returns (events: seq<Event>, s': State)
    requires StoreVersioned(s.api) && CanBeExpanded(c, s, p, config, size) && w !in s.workers
    ensures Leads(c, s, events, s') && |events| == 4
    ensures s'.api.pvcs == s.api.pvcs[p := s.api.pvcs[p].(
              request := size, version := s.api.revision,
              annotations := s.api.pvcs[p].annotations[LAST_EXPANSION := c.codec.formatTime(s.clock)])]
    ensures s'.expansions == s.expansions + [Expansion(p, s.clock)] && w !in s'.workers && s'.control == s.control
  {
    var snap := s.api.pvcs[p];
    var s1 := s.(workers := s.workers[w := Configured(p, snap, config)]);
    var s2 := s.(workers := s.workers[w := Cleared(p, snap, config, s.clock)]);
    var s3 := s.(workers := s.workers[w := Sending(p, snap, config, s.clock, size)]);
    ResolveStep(c, s, p, config, w);
    GuardStep(c, s, p, snap, config, w);
    BuildStep(c, s, p, snap, config, size, w);
    s' := SendStep(c, s, p, snap, config, size, w);
    First(c, s3, Send(w), s', [], s');
    First(c, s2, BuildUpdate(w), s3, [Send(w)] + [], s');
    First(c, s1, PassGuards(w), s2, [BuildUpdate(w)] + ([Send(w)] + []), s');
    events := [StartWorker(w, snap.version)] + ([PassGuards(w)] + ([BuildUpdate(w)] + ([Send(w)] + [])));
    First(c, s, StartWorker(w, snap.version), s1, [PassGuards(w)] + ([BuildUpdate(w)] + ([Send(w)] + [])), s');
  }

  lemma ResolveStep(c: Settings, s: State, p: Key, config: PvcConfig, w: nat)
    requires p in s.api.pvcs && Known(s.api, p, s.api.pvcs[p]) && w !in s.workers
    requires ConfigOf(c, s.policies, p, s.api.pvcs[p]) == Ok(config)
    ensures Next(c, s, StartWorker(w, s.api.pvcs[p].version))
            == Some(s.(workers := s.workers[w := Configured(p, s.api.pvcs[p], config)]))
  {
  }

  lemma GuardStep(c: Settings, s: State, p: Key, snap: Pvc, config: PvcConfig, w: nat)
    requires Guarded(Configured(p, snap, config), s.clock).Some?
    ensures Next(c, s.(workers := s.workers[w := Configured(p, snap, config)]), PassGuards(w))
            == Some(s.(workers := s.workers[w := Cleared(p, snap, config, s.clock)]))
  {
    assert s.workers[w := Configured(p, snap, config)][w := Cleared(p, snap, config, s.clock)]
        == s.workers[w := Cleared(p, snap, config, s.clock)];
  }

  lemma BuildStep(c: Settings, s: State, p: Key, snap: Pvc, config: PvcConfig, size: int, w: nat)
    requires NewSize(c.codec, config, snap) == Ok(size)
    ensures Next(c, s.(workers := s.workers[w := Cleared(p, snap, config, s.clock)]), BuildUpdate(w))
            == Some(s.(workers := s.workers[w := Sending(p, snap, config, s.clock, size)]))
  {
    assert s.workers[w := Cleared(p, snap, config, s.clock)][w := Sending(p, snap, config, s.clock, size)]
        == s.workers[w := Sending(p, snap, config, s.clock, size)];
  }

  lemma SendStep(c: Settings, s: State, p: Key, snap: Pvc, config: PvcConfig, size: int, w: nat) returns (s': State)
    requires p in s.api.pvcs && s.api.pvcs[p] == snap && w !in s.workers
    ensures Next(c, s.(workers := s.workers[w := Sending(p, snap, config, s.clock, size)]), Send(w)) == Some(s')
    ensures s'.api.pvcs == s.api.pvcs[p := snap.(
              request := size, version := s.api.revision,
              annotations := snap.annotations[LAST_EXPANSION := c.codec.formatTime(s.clock)])]
    ensures s'.expansions == s.expansions + [Expansion(p, s.clock)] && w !in s'.workers && s'.control == s.control
  {
    s' := Next(c, s.(workers := s.workers[w := Sending(p, snap, config, s.clock, size)]), Send(w)).value;
  }

  // ---- A reconcile of a group ----

  /** A watch event about a claim names the group in its annotation, in its namespace. */
  lemma WakesIff(key: Key, pvc: Pvc, g: Key)
    ensures g in GroupFor(key, Some(pvc)) <==>
            g.namespace == key.namespace && g.name != "" && Lookup(pvc.annotations, GROUP) == Some(g.name)
  {
  }

  /** A change the informer has not seen yet reaches it, and the handler then queues the groups
      that the old and the new object name. */
  lemma ChangeReachesTheQueue(c: Settings, s: State, key: Key) returns (events: seq<Event>, s': State)
    requires key in s.api.pvcs && Known(s.api, key, s.api.pvcs[key])
    requires key in s.view ==> s.view[key].version < s.api.pvcs[key].version
    ensures Leads(c, s, events, s') && s'.api == s.api && s'.view == s.view[key := s.api.pvcs[key]]
    ensures key in s.view ==> GroupFor(key, Some(s.view[key])) <= s'.control.queue
    ensures GroupFor(key, Some(s.api.pvcs[key])) <= s'.control.queue
    ensures s'.control.notices == s.control.notices
  {
    var version, n := s.api.pvcs[key].version, |s.control.notices|;
    var delivered := Next(c, s, Deliver(key, version)).value;
    s' := Next(c, delivered, Coordinate(HandleNotice(n))).value;
    assert Without(delivered.control.notices, n) == s.control.notices;
    First(c, delivered, Coordinate(HandleNotice(n)), s', [], s');
    First(c, s, Deliver(key, version), delivered, [Coordinate(HandleNotice(n))] + [], s');
    events := [Deliver(key, version)] + ([Coordinate(HandleNotice(n))] + []);
  }

  /** So does a removal. */
  lemma RemovalReachesTheQueue(c: Settings, s: State, key: Key) returns (events: seq<Event>, s': State)
    requires key in s.view && key !in s.api.pvcs
    ensures Leads(c, s, events, s') && s'.api == s.api && s'.view == s.view - {key}
    ensures GroupFor(key, Some(s.view[key])) <= s'.control.queue
  {
    var n := |s.control.notices|;
    var delivered := Next(c, s, DeliverRemoval(key)).value;
    s' := Next(c, delivered, Coordinate(HandleNotice(n))).value;
    First(c, delivered, Coordinate(HandleNotice(n)), s', [], s');
    First(c, s, DeliverRemoval(key), delivered, [Coordinate(HandleNotice(n))] + [], s');
    events := [DeliverRemoval(key)] + ([Coordinate(HandleNotice(n))] + []);
  }

  /** The reconcile of g is at work on what the API server has; the members done are at the
      maximum. */
  ghost predicate AtWork(s: State, g: Key) {
    && g in s.control.groups && g in s.control.processing && s.control.processing[g].Coordinating?
    && var x := s.control.processing[g];
       && x.todo <= x.listed.Keys
       && (forall k :: k in x.todo ==> k in s.api.pvcs && s.api.pvcs[k] == x.listed[k])
       && (forall k :: k in x.listed && k !in x.todo ==>
             k in s.api.pvcs && s.api.pvcs[k].request == Largest(x.listed))
  }

  lemma RaiseStep(c: Settings, s: State, g: Key, k: Key) returns (s': State)
    requires AtMember(s.control, g, k) && k in s.api.pvcs && s.api.pvcs[k] == s.control.processing[g].listed[k]
    requires s.control.processing[g].listed[k].request < Largest(s.control.processing[g].listed)
    ensures Next(c, s, Raise(g, k)) == Some(s') && s'.control == Handled(s.control, g, k)
    ensures s'.api.pvcs == s.api.pvcs[k := s.api.pvcs[k].(request := Largest(s.control.processing[g].listed),
                                                          version := s.api.revision)]
  {
    s' := Next(c, s, Raise(g, k)).value;
  }

  lemma OneMemberDone(c: Settings, s: State, g: Key, k: Key) returns (e: Event, s': State)
    requires AtWork(s, g) && k in s.control.processing[g].todo
    ensures Next(c, s, e) == Some(s') && AtWork(s', g) && s'.control.groups == s.control.groups
    ensures s'.control.processing[g] == s.control.processing[g].(todo := s.control.processing[g].todo - {k})
  {
    var x := s.control.processing[g];
    if x.listed[k].request < Largest(x.listed) {
      e := Raise(g, k);
      s' := RaiseStep(c, s, g, k);
    } else {
      e := Coordinate(Skip(g, k));
      s' := SkipStep(c, s, g, k);
      assert x.listed[k].request == Largest(x.listed);
    }
  }

  lemma SkipStep(c: Settings, s: State, g: Key, k: Key) returns (s': State)
    requires AtMember(s.control, g, k)
    requires s.control.processing[g].listed[k].request >= Largest(s.control.processing[g].listed)
    ensures Next(c, s, Coordinate(Skip(g, k))) == Some(s') && s' == s.(control := Handled(s.control, g, k))
  {
    s' := Next(c, s, Coordinate(Skip(g, k))).value;
  }

  lemma {:induction false} MembersDone(c: Settings, s: State, g: Key) returns (events: seq<Event>, s': State)
    requires AtWork(s, g)
    ensures Leads(c, s, events, s') && AtWork(s', g) && s'.control.groups == s.control.groups
    ensures s'.control.processing[g] == s.control.processing[g].(todo := {})
    decreases s.control.processing[g].todo
  {
    if s.control.processing[g].todo == {} {
      events, s' := [], s;
    } else {
      var k :| k in s.control.processing[g].todo;
      var e, t := OneMemberDone(c, s, g, k);
      var rest;
      rest, s' := MembersDone(c, t, g);
      events := [e] + rest;
      assert events[1..] == rest;
    }
  }

  /** A queued group whose members the informer shows as they are can be reconciled: the status
      comes to report its members, and all of them come to request the maximum. */
  lemma CoordinationGoesThrough(c: Settings, s: State, g: Key) returns (events: seq<Event>, s': State)
    requires g in s.control.groups && g in s.control.queue && g !in s.control.processing
    requires forall k :: k in Members(s.view, g) ==> k in s.api.pvcs && s.api.pvcs[k] == s.view[k]
    ensures Leads(c, s, events, s')
    ensures g !in s'.control.processing && g in s'.control.groups
    ensures s'.control.groups[g] == ReportedStatus(s.control.groups[g], Members(s.view, g))
    ensures forall k :: k in Members(s.view, g) ==>
              k in s'.api.pvcs && s'.api.pvcs[k].request == Largest(Members(s.view, g))
  {
    var s3 := Listing(c, s, g);
    var middle, s4 := MembersDone(c, s3, g);
    s' := Next(c, s4, Coordinate(Publish(g, false))).value;
    LeadsOn(c, s3, middle, s4, Coordinate(Publish(g, false)), s');
    events :=
      [Coordinate(Pick(g)), Coordinate(Get(g)), Coordinate(List(g))] + (middle + [Coordinate(Publish(g, false))]);
    ThreeFirst(c, s, g, s3, middle + [Coordinate(Publish(g, false))], s');
  }

  /** The state after picking, reading and listing. */
  lemma Listing(c: Settings, s: State, g: Key) returns (s3: State)
    requires g in s.control.groups && g in s.control.queue && g !in s.control.processing
    requires forall k :: k in Members(s.view, g) ==> k in s.api.pvcs && s.api.pvcs[k] == s.view[k]
    ensures s3 == Listed3(s, g) && AtWork(s3, g)
    ensures s3.api == s.api && s3.control.groups == s.control.groups
  {
    s3 := Listed3(s, g);
  }

  ghost function Listed3(s: State, g: Key): State
    requires g in s.control.groups
  {
    var members := Members(s.view, g);
    var x := Coordinating(ReportedStatus(s.control.groups[g], members), members, members.Keys);
    Doing(s, g, x)
  }

  ghost function Doing(s: State, g: Key, x: Reconcile): State {
    s.(control := s.control.(queue := s.control.queue - {g}, processing := s.control.processing[g := x]))
  }

  lemma PickStep(c: Settings, s: State, g: Key)
    requires g in s.control.queue && g !in s.control.processing
    ensures Next(c, s, Coordinate(Pick(g))) == Some(Doing(s, g, Picked))
  {
  }

  lemma GetStep(c: Settings, s: State, g: Key)
    requires g in s.control.groups
    ensures Next(c, Doing(s, g, Picked), Coordinate(Get(g))) == Some(Doing(s, g, Fetched(s.control.groups[g])))
  {
    assert s.control.processing[g := Picked][g := Fetched(s.control.groups[g])]
        == s.control.processing[g := Fetched(s.control.groups[g])];
  }

  lemma ListStep(c: Settings, s: State, g: Key)
    requires g in s.control.groups
    ensures Next(c, Doing(s, g, Fetched(s.control.groups[g])), Coordinate(List(g))) == Some(Listed3(s, g))
  {
    var fetched := Fetched(s.control.groups[g]);
    var x := Listed3(s, g).control.processing[g];
    assert s.control.processing[g := fetched][g := x] == s.control.processing[g := x];
  }

  lemma ThreeFirst(c: Settings, s: State, g: Key, s3: State, rest: seq<Event>, s': State)
    requires g in s.control.groups && g in s.control.queue && g !in s.control.processing
    requires s3 == Listed3(s, g) && Leads(c, s3, rest, s')
    ensures Leads(c, s, [Coordinate(Pick(g)), Coordinate(Get(g)), Coordinate(List(g))] + rest, s')
  {
    var list := [Coordinate(List(g))] + rest;
    var get := [Coordinate(Get(g))] + list;
    PickStep(c, s, g);
    GetStep(c, s, g);
    ListStep(c, s, g);
    First(c, Doing(s, g, Fetched(s.control.groups[g])), Coordinate(List(g)), s3, rest, s');
    First(c, Doing(s, g, Picked), Coordinate(Get(g)), Doing(s, g, Fetched(s.control.groups[g])), list, s');
    First(c, s, Coordinate(Pick(g)), Doing(s, g, Picked), get, s');
    assert [Coordinate(Pick(g))] + get == [Coordinate(Pick(g)), Coordinate(Get(g)), Coordinate(List(g))] + rest;
  }
}
