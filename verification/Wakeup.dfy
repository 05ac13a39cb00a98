/** The coordinator misses no wakeup: a group at rest is coordinated. */
module Wakeup {
  import opened Kube
  import opened ApiServer
  import opened Coordinator
  import opened Cluster

  /** The informer still has to see a newer state of this object. */
  predicate Pending(api: Api, view: Pvcs, key: Key) {
    key in view && (key !in api.pvcs || api.pvcs[key].version != view[key].version)
  }

  /** The status reports these members. */
  ghost predicate Reports(status: GroupStatus, members: Pvcs) {
    status.memberCount == |members| && (members.Keys != {} ==> status.currentSize == Some(Largest(members)))
  }

  /** Each of these members is at the maximum or has an undelivered change. */
  ghost predicate Levelled(api: Api, view: Pvcs, members: Pvcs, keys: set<Key>) {
    forall k :: k in keys && k in members ==> members[k].request == Largest(members) || Pending(api, view, k)
  }

  ghost predicate Quiet(s: State, g: Key)
    requires g in s.control.groups
  {
    var members := Members(s.view, g);
    Reports(s.control.groups[g], members) && Levelled(s.api, s.view, members, members.Keys)
  }

  /** Some pending notice names the group. */
  ghost predicate Noticed(notices: seq<Notice>, g: Key) {
    exists i :: 0 <= i < |notices| && g in Wakes(notices[i])
  }

  /** A reconcile of the group is still to come. */
  ghost predicate Due(k: Control, g: Key) {
    g in k.queue || Noticed(k.notices, g)
  }

  ghost predicate OnTrack(s: State, g: Key, x: Reconcile) {
    x.Coordinating? && g.name != "" && !Due(s.control, g) ==>
      && x.listed == Members(s.view, g)
      && Reports(x.status, x.listed)
      && Levelled(s.api, s.view, x.listed, x.listed.Keys - x.todo)
  }

  ghost predicate Awake(s: State) {
    && (forall g :: g in s.control.groups ==> g.name != "")
    && (forall g :: g in s.control.groups && !Due(s.control, g) && g !in s.control.processing ==> Quiet(s, g))
    && (forall g :: g in s.control.processing ==> OnTrack(s, g, s.control.processing[g]))
  }

  predicate IsDelivery(e: Event) {
    e.Deliver? || e.DeliverRemoval?
  }

  lemma MemberIsWoken(key: Key, pvc: Pvc, g: Key)
    requires MemberOf(key, pvc, g) && g.name != ""
    ensures g in GroupFor(key, Some(pvc))
  {
  }

  lemma NoticedAppend(notices: seq<Notice>, notice: Notice, g: Key)
    ensures Noticed(notices + [notice], g) <==> Noticed(notices, g) || g in Wakes(notice)
  {
    assert (notices + [notice])[|notices|] == notice;
    if Noticed(notices, g) {
      var i :| 0 <= i < |notices| && g in Wakes(notices[i]);
      assert (notices + [notice])[i] == notices[i];
    }
  }

  lemma NoticedWithout(notices: seq<Notice>, i: nat, g: Key)
    requires i < |notices|
    ensures Noticed(notices, g) <==> Noticed(Without(notices, i), g) || g in Wakes(notices[i])
  {
    var rest := Without(notices, i);
    if Noticed(notices, g) {
      var j :| 0 <= j < |notices| && g in Wakes(notices[j]);
      assert j < i ==> rest[j] == notices[j];
      assert j > i ==> rest[j - 1] == notices[j];
    }
    if Noticed(rest, g) {
      var j :| 0 <= j < |rest| && g in Wakes(rest[j]);
      assert rest[j] == notices[if j < i then j else j + 1];
    }
  }

  /** Only a delivery changes the informer's view, and only of its object; it leaves a notice. */
  lemma StepViews(c: Settings, s: State, e: Event, s': State)
    requires Next(c, s, e) == Some(s')
    ensures !IsDelivery(e) ==> s'.view == s.view
    ensures IsDelivery(e) ==> s'.api == s.api && s'.view - {e.key} == s.view - {e.key}
    ensures IsDelivery(e) ==>
              s'.control == s.control.(notices :=
                  s.control.notices + [PvcChanged(e.key, Lookup(s.view, e.key), Lookup(s'.view, e.key))])
  {
  }

  /** A group not due after a delivery was not due before, and the delivery does not name it. */
  lemma DeliveryNotices(c: Settings, s: State, e: Event, s': State, g: Key)
    requires Next(c, s, e) == Some(s') && IsDelivery(e) && !Due(s'.control, g)
    ensures !Due(s.control, g)
    ensures g !in GroupFor(e.key, Lookup(s.view, e.key)) && g !in GroupFor(e.key, Lookup(s'.view, e.key))
  {
    StepViews(c, s, e, s');
    NoticedAppend(s.control.notices, PvcChanged(e.key, Lookup(s.view, e.key), Lookup(s'.view, e.key)), g);
  }

  lemma PendingThroughStore(api: Api, view: Pvcs, key: Key, pvc: Pvc, k: Key)
    requires StoreVersioned(api) && ViewVersioned(api, view) && Pending(api, view, k)
    ensures Pending(Store(api, key, pvc), view, k)
  {
    assert Known(api, k, view[k]);
  }

  lemma PendingPersists(c: Settings, s: State, e: Event, s': State, k: Key)
    requires StoreVersioned(s.api) && ViewVersioned(s.api, s.view) && Next(c, s, e) == Some(s')
    requires Pending(s.api, s.view, k) && (IsDelivery(e) ==> e.key != k)
    ensures Pending(s'.api, s'.view, k)
  {
    StepStores(c, s, e, s');
    StepViews(c, s, e, s');
    var stored := Stored(c, s, e);
    if stored.Some? {
      PendingThroughStore(s.api, s.view, stored.value.key, stored.value.pvc, k);
    } else if IsDelivery(e) {
      assert k in s.view - {e.key};
    } else if e.Remove? {
      assert s'.api.pvcs == s.api.pvcs - {e.key};
    }
  }

  lemma UnwokenViewsAgree(view: Pvcs, view': Pvcs, key: Key, g: Key)
    requires view - {key} == view' - {key} && g.name != ""
    requires g !in GroupFor(key, Lookup(view, key)) && g !in GroupFor(key, Lookup(view', key))
    ensures Members(view', g) == Members(view, g) && key !in Members(view, g)
  {
    if key in view && MemberOf(key, view[key], g) {
      MemberIsWoken(key, view[key], g);
    }
    if key in view' && MemberOf(key, view'[key], g) {
      MemberIsWoken(key, view'[key], g);
    }
    assert forall k :: k != key ==> (k in view <==> k in view - {key}) && (k in view' <==> k in view' - {key});
    assert forall k :: k in view - {key} ==> view[k] == view'[k];
  }

  /** A delivery that wakes no group g leaves g's members as they were, and none of them is
      the delivered object. */
  lemma UnwokenMembersStay(c: Settings, s: State, e: Event, s': State, g: Key)
    requires Next(c, s, e) == Some(s') && g.name != "" && (IsDelivery(e) ==> !Due(s'.control, g))
    ensures Members(s'.view, g) == Members(s.view, g)
    ensures IsDelivery(e) ==> e.key !in Members(s.view, g)
  {
    StepViews(c, s, e, s');
    if IsDelivery(e) {
      DeliveryNotices(c, s, e, s', g);
      UnwokenViewsAgree(s.view, s'.view, e.key, g);
    }
  }

  lemma LevelledPersists(c: Settings, s: State, e: Event, s': State, g: Key, keys: set<Key>)
    requires StoreVersioned(s.api) && ViewVersioned(s.api, s.view) && Next(c, s, e) == Some(s')
    requires g.name != "" && (IsDelivery(e) ==> !Due(s'.control, g))
    requires Levelled(s.api, s.view, Members(s.view, g), keys)
    ensures Members(s'.view, g) == Members(s.view, g)
    ensures Levelled(s'.api, s'.view, Members(s'.view, g), keys)
  {
    UnwokenMembersStay(c, s, e, s', g);
    forall k | k in keys && k in Members(s.view, g) && Pending(s.api, s.view, k)
      ensures Pending(s'.api, s'.view, k)
    {
      PendingPersists(c, s, e, s', k);
    }
  }

  /** A member whose update was accepted has an undelivered change. */
  lemma RaisedIsPending(c: Settings, s: State, g: Key, key: Key, s': State)
    requires Versioned(s) && Next(c, s, Raise(g, key)) == Some(s') && key in s.view
    ensures Pending(s'.api, s'.view, key)
  {
    assert Known(s.api, key, s.view[key]);
  }

  // ---- Steps other than the coordinator's ----

  /** Steps outside the coordinator leave it alone but for the notices of deliveries. */
  lemma OutsideStepFrame(c: Settings, s: State, e: Event, s': State, g: Key)
    requires Next(c, s, e) == Some(s') && !e.Raise? && !e.Coordinate?
    ensures s'.control == s.control.(notices := s'.control.notices)
    ensures !Due(s'.control, g) ==> !Due(s.control, g)
  {
    if IsDelivery(e) && !Due(s'.control, g) {
      DeliveryNotices(c, s, e, s', g);
    }
  }

  lemma OutsideStepKeepsAwake(c: Settings, s: State, e: Event, s': State)
    requires Versioned(s) && Awake(s) && Next(c, s, e) == Some(s') && !e.Raise? && !e.Coordinate?
    ensures Awake(s')
  {
    forall g | g in s'.control.groups
      ensures g.name != ""
      ensures !Due(s'.control, g) && g !in s'.control.processing ==> Quiet(s', g)
    {
      OutsideStepFrame(c, s, e, s', g);
      if !Due(s'.control, g) && g !in s'.control.processing {
        LevelledPersists(c, s, e, s', g, Members(s.view, g).Keys);
      }
    }
    forall g | g in s'.control.processing
      ensures OnTrack(s', g, s'.control.processing[g])
    {
      OutsideStepFrame(c, s, e, s', g);
      var x := s.control.processing[g];
      if x.Coordinating? && g.name != "" && !Due(s'.control, g) {
        assert OnTrack(s, g, x);
        LevelledPersists(c, s, e, s', g, x.listed.Keys - x.todo);
      }
    }
  }

  // ---- The coordinator's steps ----

  lemma RaiseFrame(c: Settings, s: State, g: Key, key: Key, s': State)
    requires Next(c, s, Raise(g, key)) == Some(s')
    ensures AtMember(s.control, g, key) && s'.control == Handled(s.control, g, key) && s'.view == s.view
  {
  }

  lemma RaiseKeepsAwake(c: Settings, s: State, g: Key, key: Key, s': State)
    requires Versioned(s) && Awake(s) && Next(c, s, Raise(g, key)) == Some(s')
    ensures Awake(s')
  {
    var e := Raise(g, key);
    RaiseFrame(c, s, g, key, s');
    forall h | h in s'.control.groups && !Due(s'.control, h) && h !in s'.control.processing
      ensures Quiet(s', h)
    {
      LevelledPersists(c, s, e, s', h, Members(s.view, h).Keys);
    }
    forall h | h in s'.control.processing
      ensures OnTrack(s', h, s'.control.processing[h])
    {
      RaiseKeepsOnTrack(c, s, g, key, s', h);
    }
  }

  lemma RaiseKeepsOnTrack(c: Settings, s: State, g: Key, key: Key, s': State, h: Key)
    requires Versioned(s) && Next(c, s, Raise(g, key)) == Some(s')
    requires h in s'.control.processing && h in s.control.processing && OnTrack(s, h, s.control.processing[h])
    ensures OnTrack(s', h, s'.control.processing[h])
  {
    RaiseFrame(c, s, g, key, s');
    var x := s.control.processing[h];
    if x.Coordinating? && h.name != "" && !Due(s.control, h) {
      LevelledPersists(c, s, Raise(g, key), s', h, x.listed.Keys - x.todo);
      if h == g {
        RaisedIsPending(c, s, g, key, s');
      }
    }
  }

  /** A group that is due stays so until it is picked. */
  lemma DueStays(view: Pvcs, k: Control, step: GroupStep, k': Control, g: Key)
    requires GroupNext(view, k, step) == Some(k') && Due(k, g)
    ensures Due(k', g) || step == Pick(g)
  {
    if step.HandleNotice? {
      NoticedWithout(k.notices, step.i, g);
    } else if k'.notices != k.notices {
      NoticedAppend(k.notices, GroupChanged(step.group), g);
    }
  }

  /** A group whose object changed is due. */
  lemma ChangedGroupIsDue(view: Pvcs, k: Control, step: GroupStep, k': Control, g: Key)
    requires GroupNext(view, k, step) == Some(k')
    requires step == RemoveGroup(g) || (step.PutGroup? && step.group == g) || step == Fail(g) || step == Enqueue(g)
    ensures Due(k', g)
  {
    NoticedAppend(k.notices, GroupChanged(g), g);
  }

  /** The reconcile a group step leaves for g is on track if the one before was. */
  lemma GroupStepKeepsOnTrack(s: State, step: GroupStep, k': Control, g: Key)
    requires GroupNext(s.view, s.control, step) == Some(k') && g in k'.processing
    requires g in s.control.processing ==> OnTrack(s, g, s.control.processing[g])
    ensures OnTrack(s.(control := k'), g, k'.processing[g])
  {
    var x' := k'.processing[g];
    if x'.Coordinating? && g.name != "" && !Due(k', g) {
      ReconcileOrigin(s.view, s.control, step, k', g);
      if step == List(g) {
        assert Levelled(s.api, s.view, x'.listed, x'.listed.Keys - x'.todo);
      } else {
        GroupStepTakesOne(s.view, s.control, step, k', g);
      }
    }
  }

  /** Outside listing and raising, a reconcile in hand only skips members at the maximum. */
  lemma GroupStepTakesOne(view: Pvcs, k: Control, step: GroupStep, k': Control, g: Key)
    requires GroupNext(view, k, step) == Some(k') && g in k'.processing && k'.processing[g].Coordinating?
             && step != List(g)
    requires !Due(k', g)
    ensures g in k.processing && k.processing[g].Coordinating? && !Due(k, g)
    ensures forall key ::
              key in k.processing[g].todo && key !in k'.processing[g].todo && key in k.processing[g].listed ==>
              k.processing[g].listed[key].request >= Largest(k.processing[g].listed)
  {
    if Due(k, g) {
      DueStays(view, k, step, k', g);
    }
  }

  /** Where the status of a group at rest comes from. */
  lemma RestOrigin(view: Pvcs, k: Control, step: GroupStep, k': Control, g: Key)
    requires GroupNext(view, k, step) == Some(k') && g in k'.groups && !Due(k', g) && g !in k'.processing
    ensures g in k.groups && !Due(k, g)
    ensures if step.Publish? && step.group == g
            then g in k.processing && k.processing[g].Coordinating? && k.processing[g].todo == {}
              && k'.groups[g] == k.processing[g].status
            else g !in k.processing && k'.groups[g] == k.groups[g]
  {
    if Due(k, g) {
      DueStays(view, k, step, k', g);
    }
    if (step.PutGroup? && step.group == g) || step == Fail(g) {
      ChangedGroupIsDue(view, k, step, k', g);
    }
  }

  lemma GroupStepKeepsQuiet(s: State, step: GroupStep, k': Control, g: Key)
    requires GroupNext(s.view, s.control, step) == Some(k') && g in k'.groups && !Due(k', g) && g !in k'.processing
    requires g in s.control.groups && !Due(s.control, g) && g !in s.control.processing ==> Quiet(s, g)
    requires g in s.control.processing ==> OnTrack(s, g, s.control.processing[g])
    requires g in s.control.groups ==> g.name != ""
    ensures Quiet(s.(control := k'), g)
  {
    RestOrigin(s.view, s.control, step, k', g);
    if step.Publish? && step.group == g {
      var x := s.control.processing[g];
      assert x.listed.Keys - x.todo == x.listed.Keys;
    }
  }

  lemma CoordinateKeepsAwake(c: Settings, s: State, step: GroupStep, s': State)
    requires Awake(s) && Next(c, s, Coordinate(step)) == Some(s')
    ensures Awake(s')
  {
    var k' := s'.control;
    assert s' == s.(control := k');
    forall g | g in k'.groups
      ensures g.name != ""
      ensures !Due(k', g) && g !in k'.processing ==> Quiet(s', g)
    {
      if !Due(k', g) && g !in k'.processing {
        GroupStepKeepsQuiet(s, step, k', g);
      }
    }
    forall g | g in k'.processing
      ensures OnTrack(s', g, k'.processing[g])
    {
      GroupStepKeepsOnTrack(s, step, k', g);
    }
  }

  lemma {:induction false} RunsStayAwake(c: Settings, r: Run)
    requires IsRun(c, r)
    ensures Versioned(Last(r)) && Awake(Last(r))
  {
    if r.Then? {
      var s, e := Last(r.before), r.event;
      RunsStayAwake(c, r.before);
      VersionedStep(c, s, e, r.state);
      if e.Raise? {
        RaiseKeepsAwake(c, s, e.group, e.key, r.state);
      } else if e.Coordinate? {
        CoordinateKeepsAwake(c, s, e.step, r.state);
      } else {
        OutsideStepKeepsAwake(c, s, e, r.state);
      }
    }
  }

  /** The informer is up to date on everything that is or was a member of g. */
  ghost predicate CaughtUp(s: State, g: Key) {
    forall k :: k in Members(s.api.pvcs, g) || k in Members(s.view, g) ==>
      k in s.api.pvcs && k in s.view && s.api.pvcs[k].version == s.view[k].version
  }

  /** No missed wakeup: in every run, an existing group that is neither queued nor being
      reconciled, that no pending notice names, and whose members' changes the informer has seen,
      has all members at one request, and its status counts them and reports that request. */
  lemma {:induction false} NoMissedWakeup(c: Settings, r: Run, g: Key)
    requires IsRun(c, r)
    requires var k := Last(r).control; g in k.groups && !Due(k, g) && g !in k.processing
    requires CaughtUp(Last(r), g)
    ensures var s := Last(r);
            var members, status := Members(s.api.pvcs, g), s.control.groups[g];
            && status.memberCount == |members|
            && (members.Keys != {} ==> status.currentSize == Some(Largest(members)))
            && (forall k :: k in members ==> members[k].request == Largest(members))
  {
    var s := Last(r);
    RunsStayAwake(c, r);
    CaughtUpViewsAgree(s, g);
    assert Quiet(s, g);
    forall k | k in Members(s.view, g)
      ensures !Pending(s.api, s.view, k)
    {
    }
  }

  lemma CaughtUpViewsAgree(s: State, g: Key)
    requires Versioned(s) && CaughtUp(s, g)
    ensures Members(s.view, g) == Members(s.api.pvcs, g)
  {
    forall k | k in Members(s.api.pvcs, g) || k in Members(s.view, g)
      ensures s.view[k] == s.api.pvcs[k]
    {
      assert Known(s.api, k, s.view[k]) && Known(s.api, k, s.api.pvcs[k]);
    }
  }
}
