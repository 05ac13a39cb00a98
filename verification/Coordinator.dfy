/** The group coordinator (internal/controller/pvcgroup_controller.go): every member of a
    group is raised to the group's largest request. */
module Coordinator {
  import opened Kube
  import opened Annotations
  import opened ApiServer

  datatype GroupStatus = GroupStatus(memberCount: nat, currentSize: Option<int>)

  /** Reading a missing annotation gives the empty string. */
  function Note(notes: map<string, string>, key: string): string {
    if key in notes then notes[key] else ""
  }

  /** Membership: the group annotation names the group and the PVC is enabled. */
  predicate IsMember(pvc: Pvc, group: string) {
    Note(pvc.annotations, GROUP) == group && Note(pvc.annotations, ENABLED) == "true"
  }

  function Members(pvcs: Pvcs, group: Key): Pvcs {
    map key | key in pvcs && key.namespace == group.namespace && IsMember(pvcs[key], group.name) :: pvcs[key]
  }

  function MembersAmong(pvcs: Pvcs, group: Key, keys: set<Key>): Pvcs {
    map key | key in pvcs && key in keys && key.namespace == group.namespace
      && IsMember(pvcs[key], group.name) :: pvcs[key]
  }

  /** `size` is the largest request, or zero when no request is positive. */
  ghost predicate IsLargest(pvcs: Pvcs, size: int) {
    && size >= 0
    && (forall key :: key in pvcs ==> pvcs[key].request <= size)
    && (size == 0 || exists key :: key in pvcs && pvcs[key].request == size)
  }

  ghost function Largest(pvcs: Pvcs): (size: int)
    ensures IsLargest(pvcs, size)
    decreases |pvcs|
  {
    if pvcs == map[] then 0
    else
      var key :| key in pvcs;
      var rest := pvcs - {key};
      assert rest.Keys == pvcs.Keys - {key};
      assert forall k :: k in pvcs ==> k == key || k in rest;
      Max(pvcs[key].request, Largest(rest))
  }

  lemma LargestIsUnique(pvcs: Pvcs, a: int, b: int)
    requires IsLargest(pvcs, a) && IsLargest(pvcs, b)
    ensures a == b
  {
  }

  ghost function Below(pvcs: Pvcs, size: int): set<Key> {
    set key | key in pvcs && pvcs[key].request < size
  }

  /** The members whose request is below the group maximum. */
  ghost function Lagging(pvcs: Pvcs, group: Key): set<Key> {
    Below(Members(pvcs, group), Largest(Members(pvcs, group)))
  }

  /** `written` objects were raised to `size`; nothing else about any object changed. */
  ghost predicate Raised(pvcs: Pvcs, pvcs': Pvcs, written: set<Key>, size: int) {
    && written <= pvcs.Keys == pvcs'.Keys
    && (forall key :: key in pvcs && key !in written ==> pvcs'[key] == pvcs[key])
    && (forall key :: key in written ==> pvcs'[key] == pvcs[key].(request := size, version := pvcs'[key].version))
  }

  /** One reconcile without interference: it raises some lagging members, all of them when it
      completes. */
  ghost predicate Round(pvcs: Pvcs, pvcs': Pvcs, group: Key, written: set<Key>, complete: bool) {
    && Raised(pvcs, pvcs', written, Largest(Members(pvcs, group)))
    && written <= Lagging(pvcs, group)
    && (complete ==> written == Lagging(pvcs, group))
  }

  lemma RaiseOneMore(pvcs: Pvcs, current: Pvcs, written: set<Key>, size: int, key: Key, revision: nat)
    requires Raised(pvcs, current, written, size) && key in pvcs && key !in written
    ensures Raised(pvcs, Put(current, revision, key, pvcs[key].(request := size)), written + {key}, size)
  {
  }

  lemma OneMoreAmong(pvcs: Pvcs, group: Key, before: set<Key>, key: Key, active: seq<Listed>)
    requires key in InNamespace(pvcs, group.namespace) && key !in before
             && Lists(active, MembersAmong(pvcs, group, before))
    ensures Lists(if IsMember(pvcs[key], group.name) then active + [Listed(key, pvcs[key])] else active,
                  MembersAmong(pvcs, group, before + {key}))
  {
    var more := MembersAmong(pvcs, group, before + {key});
    if IsMember(pvcs[key], group.name) {
      assert (active + [Listed(key, pvcs[key])])[..|active|] == active;
      assert more - {key} == MembersAmong(pvcs, group, before);
    } else {
      assert more == MembersAmong(pvcs, group, before);
    }
  }

  lemma NextWritten(members: Pvcs, size: int, seen: set<Key>, key: Key)
    requires key in members
    ensures Below(members, size) * (seen + {key})
         == Below(members, size) * seen + if members[key].request < size then {key} else {}
  {
  }

  datatype Verdict = Gone | Reconciled | Retry

  /** The status a reconcile publishes: the size of an empty group stays as it was. */
  ghost function ReportedStatus(status: GroupStatus, members: Pvcs): GroupStatus {
    GroupStatus(|members|, if members.Keys != {} then Some(Largest(members)) else status.currentSize)
  }

  class PVCGroupReconciler {
    const api: Server
    var groups: map<Key, GroupStatus>

    constructor (api: Server, groups: map<Key, GroupStatus>)
      ensures this.api == api && this.groups == groups
    {
      this.api, this.groups := api, groups;
    }

    method CalculateLargestSize(pvcs: seq<Listed>, ghost members: Pvcs) returns (largest: int)
      requires Lists(pvcs, members)
      ensures largest == Largest(members)
    {
      largest := 0;
      for i := 0 to |pvcs|
        invariant largest >= 0
        invariant forall key :: key in ListedKeys(pvcs[..i]) && key in members ==> members[key].request <= largest
        invariant largest == 0 || exists key :: key in members && members[key].request == largest
      {
        ListedItem(pvcs, members, i);
        if pvcs[i].pvc.request > largest {
          largest := pvcs[i].pvc.request;
        }
      }
      ListingIsExact(pvcs, members);
      assert pvcs[..|pvcs|] == pvcs;
      LargestIsUnique(members, largest, Largest(members));
    }

    /** Raises the listed members one by one and stops at the first refused update. */
    method CoordinatePVCSizes(pvcs: seq<Listed>, ghost members: Pvcs, target: int, refuses: Key -> bool)
      returns (ok: bool, ghost written: set<Key>)
      requires Lists(pvcs, members) && members.Keys <= api.pvcs.Keys
      requires forall key :: key in members ==> api.pvcs[key] == members[key]
      modifies api
      ensures Raised(old(api.pvcs), api.pvcs, written, target)
      ensures StopsAtRefusal(pvcs, members, target, refuses, ok, written)
      ensures ok <==> forall key :: key in Below(members, target) ==> !refuses(key)
    {
      written := {};
      for i := 0 to |pvcs|
        invariant Raised(old(api.pvcs), api.pvcs, written, target)
        invariant written == Below(members, target) * ListedKeys(pvcs[..i])
        invariant forall key :: key in written ==> !refuses(key)
      {
        ListedItem(pvcs, members, i);
        if pvcs[i].pvc.request < target {
          var updated := RaiseMember(pvcs[i], target, refuses(pvcs[i].key), old(api.pvcs), written);
          if !updated {
            return false, written;
          }
          written := written + {pvcs[i].key};
        }
        NextWritten(members, target, ListedKeys(pvcs[..i]), pvcs[i].key);
      }
      ListingIsExact(pvcs, members);
      assert pvcs[..|pvcs|] == pvcs;
      return true, written;
    }

    method RaiseMember(item: Listed, target: int, refused: bool, ghost pvcs: Pvcs, ghost written: set<Key>)
      returns (ok: bool)
      requires Raised(pvcs, api.pvcs, written, target)
      requires item.key in pvcs && pvcs[item.key] == item.pvc && item.key !in written
      modifies api
      ensures ok <==> !refused
      ensures Raised(pvcs, api.pvcs, if ok then written + {item.key} else written, target)
    {
      var copy := item.pvc.(request := target);
      RaiseOneMore(pvcs, api.pvcs, written, target, item.key, api.revision);
      ok := api.Update(item.key, copy, refused);
    }

    /** The members of a listing, in list order. */
    method SelectMembers(items: seq<Listed>, ghost pvcs: Pvcs, group: Key) returns (active: seq<Listed>)
      requires Lists(items, InNamespace(pvcs, group.namespace))
      ensures Lists(active, Members(pvcs, group))
      ensures group.name != "" ==> forall x :: x in active ==>
                Lookup(x.pvc.annotations, GROUP) == Some(group.name)
                  && Lookup(x.pvc.annotations, ENABLED) == Some("true")
    {
      active := [];
      ghost var listed := InNamespace(pvcs, group.namespace);
      for i := 0 to |items|
        invariant Lists(active, MembersAmong(pvcs, group, ListedKeys(items[..i])))
        invariant forall x :: x in active ==> IsMember(x.pvc, group.name)
      {
        ListedItem(items, listed, i);
        OneMoreAmong(pvcs, group, ListedKeys(items[..i]), items[i].key, active);
        if IsMember(items[i].pvc, group.name) {
          active := active + [items[i]];
        }
      }
      ListingIsExact(items, listed);
      assert items[..|items|] == items;
      assert MembersAmong(pvcs, group, listed.Keys) == Members(pvcs, group);
    }

    /** Counts the members, raises them, and computes the status to publish. */
    method CoordinateMembers(group: Key, status: GroupStatus, refuses: Key -> bool)
      returns (ok: bool, status': GroupStatus, ghost written: set<Key>)
      modifies api
      ensures Round(old(api.pvcs), api.pvcs, group, written, ok)
      ensures ok <==> forall key :: key in Lagging(old(api.pvcs), group) ==> !refuses(key)
      ensures forall key :: key in written ==> !refuses(key)
      ensures status' == ReportedStatus(status, Members(old(api.pvcs), group))
    {
      var items := api.List(group.namespace);
      var active := SelectMembers(items, api.pvcs, group);
      ghost var members := Members(api.pvcs, group);
      ListingIsExact(active, members);
      status' := status.(memberCount := |active|);
      ok, written := true, {};
      if |active| > 0 {
        var coordinated := CalculateLargestSize(active, members);
        status' := status'.(currentSize := Some(coordinated));
        ok, written := CoordinatePVCSizes(active, members, coordinated, refuses);
      }
    }

    /** One reconcile. A failed read, a refused update or a refused status update is retried, and
        then no status is published. */
    method Reconcile(group: Key, answers: Answers) returns (result: Verdict, ghost written: set<Key>)
      modifies this, api
      ensures result == Gone <==> !answers.getFails && group !in old(groups)
      ensures result == Retry <==>
              answers.getFails
              || (group in old(groups)
                  && (answers.listFails || answers.statusRefused
                      || exists key :: key in Lagging(old(api.pvcs), group) && answers.refuses(key)))
      ensures Round(old(api.pvcs), api.pvcs, group, written, result.Reconciled?)
              || (result.Gone? && api.pvcs == old(api.pvcs))
      ensures result == Retry && !answers.getFails && !answers.listFails
              && (forall key :: key in Lagging(old(api.pvcs), group) ==> !answers.refuses(key)) ==>
                written == Lagging(old(api.pvcs), group)
      ensures forall key :: key in old(api.pvcs) && Lookup(old(api.pvcs)[key].annotations, ENABLED) != Some("true") ==>
                key in api.pvcs && api.pvcs[key] == old(api.pvcs)[key]
      ensures result == Reconciled ==>
                && group in old(groups)
                && groups == old(groups)[group := ReportedStatus(old(groups)[group], Members(old(api.pvcs), group))]
      ensures result != Reconciled ==> groups == old(groups)
    {
      written := {};
      if answers.getFails {
        return Retry, written;
      }
      if group !in groups {
        return Gone, written;
      }
      if answers.listFails {
        return Retry, written;
      }
      var ok, status;
      ok, status, written := CoordinateMembers(group, groups[group], answers.refuses);
      DisabledStay(old(api.pvcs), api.pvcs, group, written, ok);
      if !ok || answers.statusRefused {
        NotNecessarilyComplete(old(api.pvcs), api.pvcs, group, written, ok);
        return Retry, written;
      }
      groups := groups[group := status];
      return Reconciled, written;
    }
  }

  /** What the API server answers during one reconcile. */
  datatype Answers = Answers(getFails: bool, listFails: bool, refuses: Key -> bool, statusRefused: bool)

  /** All members below the target were written, or those listed before the first of them whose
      update was refused; none of the written ones was refused. */
  ghost predicate StopsAtRefusal(pvcs: seq<Listed>, members: Pvcs, target: int, refuses: Key -> bool, ok: bool,
                                 written: set<Key>)
  {
    && (forall key :: key in written ==> !refuses(key))
    && if ok then written == Below(members, target)
       else
         exists n ::
           0 <= n < |pvcs| && written == Below(members, target) * ListedKeys(pvcs[..n])
           && pvcs[n].key in Below(members, target) && refuses(pvcs[n].key)
  }

  /** The members of a named group are the claims of its namespace that name it and are enabled
      with exactly "true". */
  lemma MembersAre(pvcs: Pvcs, group: Key, key: Key)
    requires group.name != ""
    ensures key in Members(pvcs, group) <==>
            && key in pvcs && key.namespace == group.namespace
            && Lookup(pvcs[key].annotations, GROUP) == Some(group.name)
            && Lookup(pvcs[key].annotations, ENABLED) == Some("true")
  {
  }

  /** A claim that is not enabled is no member: it is not written, not counted, and has no say
      in the size. */
  lemma DisabledStay(pvcs: Pvcs, pvcs': Pvcs, group: Key, written: set<Key>, complete: bool)
    requires Round(pvcs, pvcs', group, written, complete)
    ensures forall key :: key in pvcs && Lookup(pvcs[key].annotations, ENABLED) != Some("true") ==>
              key in pvcs' && pvcs'[key] == pvcs[key] && key !in Members(pvcs, group)
  {
    forall key | key in pvcs && Lookup(pvcs[key].annotations, ENABLED) != Some("true")
      ensures key !in Members(pvcs, group)
    {
    }
  }

  /** The published status counts the enabled claims of the namespace that name the group, and
      gives the largest of their requests; without any it keeps the size it had. */
  lemma StatusReportsMembers(status: GroupStatus, pvcs: Pvcs, group: Key)
    requires group.name != ""
    ensures var members := set key | key in pvcs && key.namespace == group.namespace
                                      && Lookup(pvcs[key].annotations, GROUP) == Some(group.name)
                                      && Lookup(pvcs[key].annotations, ENABLED) == Some("true");
            var reported := ReportedStatus(status, Members(pvcs, group));
            && reported.memberCount == |members|
            && (members == {} ==> reported.currentSize == status.currentSize)
            && (members != {} ==> reported.currentSize.Some?)
            && (members != {} ==> forall key :: key in members ==> pvcs[key].request <= reported.currentSize.value)
            && (members != {} ==>
                (reported.currentSize == Some(0)
                 || exists key :: key in members && Some(pvcs[key].request) == reported.currentSize))
  {
    var members := set key | key in pvcs && key.namespace == group.namespace
                              && Lookup(pvcs[key].annotations, GROUP) == Some(group.name)
                              && Lookup(pvcs[key].annotations, ENABLED) == Some("true");
    forall key
      ensures key in members <==> key in Members(pvcs, group)
    {
      MembersAre(pvcs, group, key);
    }
    assert Members(pvcs, group).Keys == members;
    assert IsLargest(Members(pvcs, group), Largest(Members(pvcs, group)));
    if members != {} && Largest(Members(pvcs, group)) != 0 {
      var key :| key in Members(pvcs, group) && Members(pvcs, group)[key].request == Largest(Members(pvcs, group));
      assert key in members;
    }
  }

  lemma NotNecessarilyComplete(pvcs: Pvcs, pvcs': Pvcs, group: Key, written: set<Key>, complete: bool)
    requires Round(pvcs, pvcs', group, written, complete)
    ensures Round(pvcs, pvcs', group, written, false)
  {
  }

  // ---- Convergence of one group, whatever updates are refused ----

  /** A round leaves membership and the maximum alone; the members it wrote stop lagging. */
  lemma RoundShrinksLag(pvcs: Pvcs, pvcs': Pvcs, group: Key, written: set<Key>, complete: bool)
    requires Round(pvcs, pvcs', group, written, complete)
    ensures Members(pvcs', group).Keys == Members(pvcs, group).Keys
    ensures Largest(Members(pvcs', group)) == Largest(Members(pvcs, group))
    ensures Lagging(pvcs', group) == Lagging(pvcs, group) - written
    ensures |Lagging(pvcs', group)| + |written| == |Lagging(pvcs, group)|
  {
    var m, m', size := Members(pvcs, group), Members(pvcs', group), Largest(Members(pvcs, group));
    RaisingKeepsMembership(pvcs, pvcs', group, written, size);
    RaisingKeepsLargest(m, m', written, size);
    assert Lagging(pvcs', group) == Lagging(pvcs, group) - written;
    SubsetSize(Lagging(pvcs, group), written);
  }

  lemma SubsetSize(whole: set<Key>, part: set<Key>)
    requires part <= whole
    ensures |whole - part| + |part| == |whole|
  {
  }

  lemma RaisingKeepsMembership(pvcs: Pvcs, pvcs': Pvcs, group: Key, written: set<Key>, size: int)
    requires Raised(pvcs, pvcs', written, size)
    ensures Members(pvcs', group).Keys == Members(pvcs, group).Keys
    ensures forall key :: key in Members(pvcs, group) ==>
              Members(pvcs', group)[key].request == if key in written then size else Members(pvcs, group)[key].request
  {
  }

  lemma RaisingKeepsLargest(m: Pvcs, m': Pvcs, written: set<Key>, size: int)
    requires m'.Keys == m.Keys && size == Largest(m) && written <= Below(m, size)
    requires forall key :: key in m ==> m'[key].request == if key in written then size else m[key].request
    ensures Largest(m') == size
  {
    if size != 0 {
      var key :| key in m && m[key].request == size;
      assert key in m' && m'[key].request == size;
    }
    LargestIsUnique(m', size, Largest(m'));
  }

  /** A round never lowers a request and never touches an object outside the group. */
  lemma RoundOnlyRaisesMembers(pvcs: Pvcs, pvcs': Pvcs, group: Key, written: set<Key>, complete: bool, key: Key)
    requires Round(pvcs, pvcs', group, written, complete) && key in pvcs
    ensures key in pvcs' && pvcs'[key].request >= pvcs[key].request
    ensures key !in Members(pvcs, group) ==> pvcs'[key] == pvcs[key]
    ensures pvcs'[key].(request := pvcs[key].request, version := pvcs[key].version) == pvcs[key]
  {
  }

  /** A run of rounds, newest last; each records what it wrote and whether it completed. */
  datatype Rounds = Fresh(pvcs: Pvcs) | After(before: Rounds, pvcs: Pvcs, written: set<Key>, complete: bool)

  ghost predicate AreRounds(r: Rounds, group: Key) {
    match r
    case Fresh(_) => true
    case After(before, pvcs, written, complete) =>
      AreRounds(before, group) && Round(before.pvcs, pvcs, group, written, complete)
  }

  function Initial(r: Rounds): Pvcs {
    match r
    case Fresh(pvcs) => pvcs
    case After(before, _, _, _) => Initial(before)
  }

  function TotalWrites(r: Rounds): nat {
    match r
    case Fresh(_) => 0
    case After(before, _, written, _) => TotalWrites(before) + |written|
  }

  predicate SomeComplete(r: Rounds) {
    match r
    case Fresh(_) => false
    case After(before, _, _, complete) => complete || SomeComplete(before)
  }

  /** Under any pattern of refusals and retries the writes made so far and the members still
      lagging add up to the members that lagged at first, and the target never moves; after
      one completed round nothing lags. */
  lemma {:induction false} WritesPlusLagAreConserved(r: Rounds, group: Key)
    requires AreRounds(r, group)
    ensures Members(r.pvcs, group).Keys == Members(Initial(r), group).Keys
    ensures Largest(Members(r.pvcs, group)) == Largest(Members(Initial(r), group))
    ensures TotalWrites(r) + |Lagging(r.pvcs, group)| == |Lagging(Initial(r), group)|
    ensures SomeComplete(r) ==> Lagging(r.pvcs, group) == {}
  {
    if r.After? {
      WritesPlusLagAreConserved(r.before, group);
      RoundShrinksLag(r.before.pvcs, r.pvcs, group, r.written, r.complete);
    }
  }

  /** The fixed point: after a completed round every member requests the initial maximum, the
      number of writes was the number of members below it, and further rounds change nothing. */
  lemma ConvergesToInitialMaximum(r: Rounds, group: Key)
    requires AreRounds(r, group) && SomeComplete(r)
    ensures Members(r.pvcs, group).Keys == Members(Initial(r), group).Keys
    ensures forall key :: key in Members(r.pvcs, group) ==> r.pvcs[key].request == Largest(Members(Initial(r), group))
    ensures TotalWrites(r) == |Lagging(Initial(r), group)|
    ensures forall pvcs', written, complete :: Round(r.pvcs, pvcs', group, written, complete) ==>
              written == {} && pvcs' == r.pvcs
  {
    WritesPlusLagAreConserved(r, group);
    forall key | key in Members(r.pvcs, group)
      ensures r.pvcs[key].request == Largest(Members(Initial(r), group))
    {
      assert key !in Lagging(r.pvcs, group);
    }
    forall pvcs', written, complete | Round(r.pvcs, pvcs', group, written, complete)
      ensures written == {} && pvcs' == r.pvcs
    {
      IdleRound(r.pvcs, pvcs', group, written, complete);
    }
  }

  lemma IdleRound(pvcs: Pvcs, pvcs': Pvcs, group: Key, written: set<Key>, complete: bool)
    requires Round(pvcs, pvcs', group, written, complete) && Lagging(pvcs, group) == {}
    ensures written == {} && pvcs' == pvcs
  {
  }

  predicate AllRequest(pvcs: Pvcs, size: int) {
    size >= 0 && forall key :: key in pvcs ==> pvcs[key].request == size
  }

  /** Nothing lags exactly when all members make one request, unless that is negative. */
  lemma NothingLagsIff(pvcs: Pvcs, group: Key)
    ensures Lagging(pvcs, group) == {} <==>
            exists size :: AllRequest(Members(pvcs, group), size)
  {
    var m := Members(pvcs, group);
    if Lagging(pvcs, group) == {} {
      forall key | key in m
        ensures m[key].request == Largest(m)
      {
        assert key !in Lagging(pvcs, group);
      }
      assert AllRequest(m, Largest(m));
    } else {
      var low :| low in Lagging(pvcs, group);
    }
  }

  // ---- The coordinator and max-size ----

  /** Each member's own configuration. */
  type Configs = map<Key, PvcConfig>

  ghost predicate WithinOwnLimits(pvcs: Pvcs, group: Key, configs: Configs) {
    forall key :: key in Members(pvcs, group) && key in configs ==> !ExceedsMaxSize(configs[key], pvcs[key].request)
  }

  /** A member ends above its own max-size exactly when the largest request at first was above
      it: the coordinator never asks. */
  lemma CoordinationExceedsIff(r: Rounds, group: Key, key: Key, config: PvcConfig)
    requires AreRounds(r, group) && SomeComplete(r) && key in Members(r.pvcs, group)
    ensures ExceedsMaxSize(config, r.pvcs[key].request) <==> ExceedsMaxSize(config, Largest(Members(Initial(r), group)))
  {
    ConvergesToInitialMaximum(r, group);
  }

  /** Some member requests more than the max-size of some member, itself included, or a member
      has a negative max-size, which no size satisfies. */
  ghost predicate OutgrowsALimit(pvcs: Pvcs, group: Key, configs: Configs) {
    exists key, other ::
      key in Members(pvcs, group) && key in configs && other in Members(pvcs, group)
      && (configs[key].maxSize < 0 || ExceedsMaxSize(configs[key], pvcs[other].request))
  }

  lemma LargestExceedsIff(pvcs: Pvcs, config: PvcConfig)
    ensures ExceedsMaxSize(config, Largest(pvcs)) <==>
            config.maxSize < 0 || exists key :: key in pvcs && ExceedsMaxSize(config, pvcs[key].request)
  {
    var size := Largest(pvcs);
    if config.maxSize >= 0 && ExceedsMaxSize(config, size) {
      var key :| key in pvcs && pvcs[key].request == size;
    }
  }

  /** Coordination leaves every member within its own max-size exactly when no member requested
      more than any member's max-size to begin with, and none is negative. */
  lemma CoordinationRespectsLimitsIff(r: Rounds, group: Key, configs: Configs)
    requires AreRounds(r, group) && SomeComplete(r)
    ensures WithinOwnLimits(r.pvcs, group, configs) <==> !OutgrowsALimit(Initial(r), group, configs)
  {
    var members := Members(Initial(r), group);
    WritesPlusLagAreConserved(r, group);
    forall key | key in members && key in configs
      ensures ExceedsMaxSize(configs[key], r.pvcs[key].request) <==>
              exists other :: other in members
                && (configs[key].maxSize < 0 || ExceedsMaxSize(configs[key], members[other].request))
    {
      CoordinationExceedsIff(r, group, key, configs[key]);
      LargestExceedsIff(members, configs[key]);
      assert key in members;
    }
  }

  /** A member of 1 GiB with a max-size of 2 GiB is raised to its neighbour's 3 GiB. */
  lemma MemberPushedPastItsLimit(group: Key, a: Key, b: Key, pvc: Pvc, config: PvcConfig, pvcs': Pvcs,
                                 written: set<Key>)
    requires a != b && a.namespace == b.namespace == group.namespace && IsMember(pvc, group.name)
    requires config.maxSize == 2 * GIB
    requires Round(map[a := pvc.(request := GIB), b := pvc.(request := 3 * GIB)], pvcs', group, written, true)
    ensures a in pvcs' && pvcs'[a].request == 3 * GIB
    ensures !ExceedsMaxSize(config, GIB) && ExceedsMaxSize(config, pvcs'[a].request)
  {
    var pvcs: Pvcs := map[a := pvc.(request := GIB), b := pvc.(request := 3 * GIB)];
    assert Members(pvcs, group) == pvcs;
    assert pvcs[b].request == 3 * GIB;
    LargestIsUnique(pvcs, 3 * GIB, Largest(pvcs));
    assert a in Lagging(pvcs, group);
  }
}
