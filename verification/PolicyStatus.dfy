/** The policy controller (internal/controller/pvcpolicy_controller.go): each policy's status
    counts the PVCs of its namespace that its selector matches. */
module PolicyStatus {
  import opened Kube
  import opened Annotations
  import opened ApiServer

  datatype PolicyObject = PolicyObject(selector: Selector, matchedPVCs: nat)

  type Policies = map<Key, PolicyObject>

  /** The PVCs a reconcile counts. */
  function Matching(pvcs: Pvcs, namespace: string, selector: Selector): set<Key> {
    set key | key in pvcs && key.namespace == namespace && selector.matches(pvcs[key].labels)
  }

  function MatchingAmong(pvcs: Pvcs, namespace: string, selector: Selector, keys: set<Key>): set<Key> {
    Matching(pvcs, namespace, selector) * keys
  }

  /** The policies an object's watch event names. */
  function Woken(policies: Policies, namespace: string, pvc: Option<Pvc>): set<Key> {
    set p | p in policies && p.namespace == namespace && Selects(policies[p].selector, pvc)
  }

  predicate Selects(selector: Selector, pvc: Option<Pvc>) {
    selector.valid && pvc.Some? && selector.matches(pvc.value.labels)
  }

  // ---- The two loops ----

  lemma OneMoreMatching(pvcs: Pvcs, namespace: string, selector: Selector, before: set<Key>, key: Key)
    requires key in InNamespace(pvcs, namespace) && key !in before
    ensures |MatchingAmong(pvcs, namespace, selector, before + {key})|
         == |MatchingAmong(pvcs, namespace, selector, before)| + if selector.matches(pvcs[key].labels) then 1 else 0
  {
    var fewer := MatchingAmong(pvcs, namespace, selector, before);
    var more := MatchingAmong(pvcs, namespace, selector, before + {key});
    assert more == if selector.matches(pvcs[key].labels) then fewer + {key} else fewer;
  }

  method CountMatching(items: seq<Listed>, ghost pvcs: Pvcs, namespace: string, selector: Selector) returns (count: nat)
    requires Lists(items, InNamespace(pvcs, namespace))
    ensures count == |Matching(pvcs, namespace, selector)|
  {
    count := 0;
    ghost var listed := InNamespace(pvcs, namespace);
    for i := 0 to |items|
      invariant count == |MatchingAmong(pvcs, namespace, selector, ListedKeys(items[..i]))|
    {
      ListedItem(items, listed, i);
      OneMoreMatching(pvcs, namespace, selector, ListedKeys(items[..i]), items[i].key);
      if selector.matches(items[i].pvc.labels) {
        count := count + 1;
      }
    }
    ListingIsExact(items, listed);
    assert items[..|items|] == items;
    assert MatchingAmong(pvcs, namespace, selector, listed.Keys) == Matching(pvcs, namespace, selector);
  }

  datatype ListedPolicy = ListedPolicy(key: Key, selector: Selector)

  /** `listed` is a listing of the namespace's policies. */
  ghost predicate ListsPolicies(listed: seq<ListedPolicy>, policies: Policies, namespace: string) {
    && (forall x :: x in listed ==>
        x.key in policies && x.key.namespace == namespace && policies[x.key].selector == x.selector)
    && (forall p :: p in policies && p.namespace == namespace ==> ListedPolicy(p, policies[p].selector) in listed)
  }

  /** findPVCPoliciesForPVC: a failed list call yields no requests, and invalid selectors are
      skipped. */
  method FindPVCPoliciesForPVC(listed: Option<seq<ListedPolicy>>, pvc: Pvc, ghost policies: Policies, namespace: string)
    returns (requests: seq<Key>)
    requires listed.Some? ==> ListsPolicies(listed.value, policies, namespace)
    ensures listed.Some? ==> forall p :: p in requests <==> p in Woken(policies, namespace, Some(pvc))
    ensures listed.None? ==> requests == []
  {
    requests := [];
    if listed.None? {
      return;
    }
    for i := 0 to |listed.value|
      invariant forall p :: p in requests <==>
                  exists x :: x in listed.value[..i] && x.key == p && Selects(x.selector, Some(pvc))
    {
      var policy := listed.value[i];
      ghost var before := listed.value[..i];
      assert forall x :: x in listed.value[..i + 1] <==> x in before || x == policy;
      if policy.selector.valid && policy.selector.matches(pvc.labels) {
        requests := requests + [policy.key];
      }
    }
    assert listed.value[..|listed.value|] == listed.value;
    forall p | p in Woken(policies, namespace, Some(pvc))
      ensures p in requests
    {
      assert ListedPolicy(p, policies[p].selector) in listed.value;
    }
  }

  /** The mapping names exactly the policies whose next reconcile would count the PVC. */
  lemma MappingNamesCounters(policies: Policies, pvcs: Pvcs, key: Key, p: Key)
    requires key in pvcs
    ensures p in Woken(policies, key.namespace, Some(pvcs[key])) <==>
            p in policies && policies[p].selector.valid && key in Matching(pvcs, p.namespace, policies[p].selector)
  {
  }

  datatype Verdict = Gone | Updated | Retry

  class PVCPolicyReconciler {
    const api: Server
    var policies: Policies

    constructor (api: Server, policies: Policies)
      ensures this.api == api && this.policies == policies
    {
      this.api, this.policies := api, policies;
    }

    /** One reconcile. A failed read, a refused status update and a selector that does not convert
        are retried. */
    method Reconcile(p: Key, getFails: bool, listFails: bool, refused: bool) returns (result: Verdict)
      modifies this
      ensures result == Gone <==> !getFails && p !in old(policies)
      ensures result == Retry <==>
              getFails || (p in old(policies) && (listFails || refused || !old(policies)[p].selector.valid))
      ensures result == Updated ==>
                && p in old(policies)
                && var selector := old(policies)[p].selector;
                   var counted := set key | key in api.pvcs && key.namespace == p.namespace
                                            && selector.matches(api.pvcs[key].labels);
                   policies == old(policies)[p := PolicyObject(selector, |counted|)]
      ensures result != Updated ==> policies == old(policies)
    {
      if getFails {
        return Retry;
      }
      if p !in policies {
        return Gone;
      }
      if listFails {
        return Retry;
      }
      var items := api.List(p.namespace);
      var selector := policies[p].selector;
      if !selector.valid {
        return Retry;
      }
      var count := CountMatching(items, api.pvcs, p.namespace, selector);
      if refused {
        return Retry;
      }
      policies := policies[p := policies[p].(matchedPVCs := count)];
      return Updated;
    }
  }

  // ---- The controller at work ----

  const SLOTS := 10

  /** A change the informer has applied to its cache and not yet handed to the handler. */
  datatype Note =
    | PvcChanged(key: Key, before: Option<Pvc>, after: Option<Pvc>)
    | PolicyChanged(policy: Key)

  datatype Reconcile =
    | Blocked                          // waiting for a semaphore slot
    | Holding
    | Fetched(selector: Selector)
    | Counted(count: nat)

  /** `policies` and `pvcs` are the informer's caches. */
  datatype State = State(
    policies: Policies, pvcs: Pvcs, notes: seq<Note>, queue: set<Key>, processing: map<Key, Reconcile>)

  datatype Event =
    | ChangePvc(key: Key, pvc: Option<Pvc>)                // created, updated or deleted
    | ChangePolicy(policy: Key, selector: Option<Selector>)
    | Deliver(i: nat, listed: bool)                        // the handler runs; its list call may fail
    | Enqueue(policy: Key)                                 // timers and resyncs
    | Pick(policy: Key)
    | Acquire(policy: Key)
    | Get(policy: Key)
    | ListAndCount(policy: Key)
    | Fail(policy: Key)                                    // any error: it is retried
    | Publish(policy: Key, echo: bool)                     // the update's own watch event may follow

  /** The policies the handler of a note enqueues. */
  function NamedBy(policies: Policies, note: Note): set<Key> {
    match note
    case PvcChanged(key, before, after) =>
      Woken(policies, key.namespace, before) + Woken(policies, key.namespace, after)
    case PolicyChanged(p) => {p}
  }

  predicate HasSlot(x: Reconcile) {
    !x.Blocked?
  }

  function Holders(processing: map<Key, Reconcile>): set<Key> {
    set p | p in processing && HasSlot(processing[p])
  }

  function SetPvc(pvcs: Pvcs, key: Key, pvc: Option<Pvc>): Pvcs {
    if pvc.Some? then pvcs[key := pvc.value] else pvcs - {key}
  }

  function SetSelector(policies: Policies, p: Key, selector: Option<Selector>): Policies {
    if selector.None? then policies - {p}
    else if p in policies then policies[p := policies[p].(selector := selector.value)]
    else policies[p := PolicyObject(selector.value, 0)]
  }

  function DeliverNext(s: State, i: nat, listed: bool): Option<State> {
    if i >= |s.notes| then None
    else
      var named := if s.notes[i].PvcChanged? && !listed then {} else NamedBy(s.policies, s.notes[i]);
      Some(s.(notes := Without(s.notes, i), queue := s.queue + named))
  }

  /** The reconcile of p moves on. */
  function Move(s: State, p: Key, x: Reconcile): State {
    s.(processing := s.processing[p := x])
  }

  /** The reconcile of p ends; an error puts p back. */
  function Finish(s: State, p: Key, retry: bool): State {
    s.(processing := s.processing - {p}, queue := s.queue + if retry then {p} else {})
  }

  function ReconcileNext(s: State, p: Key, e: Event): Option<State>
    requires p in s.processing
  {
    match (s.processing[p], e) {
      case (Blocked, Acquire(_)) => if |Holders(s.processing)| < SLOTS then Some(Move(s, p, Holding)) else None
      case (Holding, Get(_)) =>
        Some(if p in s.policies then Move(s, p, Fetched(s.policies[p].selector)) else Finish(s, p, false))
      case (Fetched(selector), ListAndCount(_)) =>
        Some(if selector.valid then Move(s, p, Counted(|Matching(s.pvcs, p.namespace, selector)|))
             else Finish(s, p, true))
      case (Counted(count), Publish(_, echo)) =>
        if p !in s.policies then None
        else
          Some(Finish(s, p, false).(policies := s.policies[p := s.policies[p].(matchedPVCs := count)],
                                    notes := s.notes + if echo then [PolicyChanged(p)] else []))
      case (x, Fail(_)) => if HasSlot(x) then Some(Finish(s, p, true)) else None
      case _ => None
    }
  }

  /** The state after an event, None when the event cannot happen. */
  function Next(s: State, e: Event): Option<State> {
    match e
    case ChangePvc(key, pvc) =>
      Some(s.(pvcs := SetPvc(s.pvcs, key, pvc), notes := s.notes + [PvcChanged(key, Lookup(s.pvcs, key), pvc)]))
    case ChangePolicy(p, selector) =>
      Some(s.(policies := SetSelector(s.policies, p, selector), notes := s.notes + [PolicyChanged(p)]))
    case Deliver(i, listed) => DeliverNext(s, i, listed)
    case Enqueue(p) => Some(s.(queue := s.queue + {p}))
    case Pick(p) =>
      if p in s.queue && p !in s.processing then Some(Move(s, p, Blocked).(queue := s.queue - {p})) else None
    case _ => if e.policy in s.processing then ReconcileNext(s, e.policy, e) else None
  }

  datatype Run = Start(first: State) | Then(before: Run, event: Event, state: State)

  function Last(r: Run): State {
    match r
    case Start(s) => s
    case Then(_, _, s) => s
  }

  /** At start every existing policy is queued. */
  predicate Initial(s: State) {
    s.policies.Keys <= s.queue && s.processing == map[]
  }

  ghost predicate IsRun(r: Run) {
    match r
    case Start(s) => Initial(s)
    case Then(before, e, s) => IsRun(before) && Next(Last(before), e) == Some(s)
  }

  /** Every list call of the mapping succeeded. */
  predicate ListsSucceed(r: Run) {
    match r
    case Start(_) => true
    case Then(before, e, _) => ListsSucceed(before) && (e.Deliver? ==> e.listed)
  }

  // ---- The invariant ----

  ghost predicate Noted(policies: Policies, notes: seq<Note>, p: Key) {
    exists i :: 0 <= i < |notes| && p in NamedBy(policies, notes[i])
  }

  /** Work on p is still to come. */
  ghost predicate Due(s: State, p: Key) {
    p in s.queue || Noted(s.policies, s.notes, p)
  }

  /** `count` is what a reconcile of p would publish now. */
  predicate Right(policies: Policies, pvcs: Pvcs, p: Key, count: nat)
    requires p in policies
  {
    policies[p].selector.valid && count == |Matching(pvcs, p.namespace, policies[p].selector)|
  }

  ghost predicate OnTrack(s: State, p: Key, x: Reconcile) {
    p in s.policies ==>
      && (x.Fetched? ==> x.selector == s.policies[p].selector)
      && (x.Counted? ==> Right(s.policies, s.pvcs, p, x.count))
  }

  /** One policy: its status is right, or it is queued, in flight or about to be enqueued; and
      what a reconcile in flight has in hand is still good, or another one is due. */
  ghost predicate Attended(s: State, p: Key) {
    Due(s, p)
    || (if p in s.processing then OnTrack(s, p, s.processing[p])
        else p in s.policies ==> Right(s.policies, s.pvcs, p, s.policies[p].matchedPVCs))
  }

  lemma NotedAppend(policies: Policies, notes: seq<Note>, note: Note, p: Key)
    ensures Noted(policies, notes + [note], p) <==> Noted(policies, notes, p) || p in NamedBy(policies, note)
  {
    assert (notes + [note])[|notes|] == note;
    if Noted(policies, notes, p) {
      var i :| 0 <= i < |notes| && p in NamedBy(policies, notes[i]);
      assert (notes + [note])[i] == notes[i];
    }
  }

  lemma NotedWithout(policies: Policies, notes: seq<Note>, i: nat, p: Key)
    requires i < |notes|
    ensures Noted(policies, notes, p) <==> Noted(policies, Without(notes, i), p) || p in NamedBy(policies, notes[i])
  {
    var rest := Without(notes, i);
    if Noted(policies, notes, p) {
      var j :| 0 <= j < |notes| && p in NamedBy(policies, notes[j]);
      assert j < i ==> rest[j] == notes[j];
      assert j > i ==> rest[j - 1] == notes[j];
    }
    if Noted(policies, rest, p) {
      var j :| 0 <= j < |rest| && p in NamedBy(policies, rest[j]);
      assert rest[j] == notes[if j < i then j else j + 1];
    }
  }

  /** Only the selector of p decides which notes name it. */
  lemma NotedBySelector(policies: Policies, policies': Policies, notes: seq<Note>, p: Key)
    requires p in policies <==> p in policies'
    requires p in policies ==> policies[p].selector == policies'[p].selector
    ensures Noted(policies, notes, p) <==> Noted(policies', notes, p)
  {
    forall i | 0 <= i < |notes|
      ensures p in NamedBy(policies, notes[i]) <==> p in NamedBy(policies', notes[i])
    {
    }
  }

  /** A PVC change that alters what p counts names p. */
  lemma UnnamedChangeCountsSame(policies: Policies, pvcs: Pvcs, key: Key, pvc: Option<Pvc>, p: Key)
    requires p in policies && policies[p].selector.valid
    requires p !in NamedBy(policies, PvcChanged(key, Lookup(pvcs, key), pvc))
    ensures Matching(SetPvc(pvcs, key, pvc), p.namespace, policies[p].selector)
            == Matching(pvcs, p.namespace, policies[p].selector)
  {
  }

  lemma ChangePvcKeepsAttended(s: State, key: Key, pvc: Option<Pvc>, s': State, p: Key)
    requires Attended(s, p) && Next(s, ChangePvc(key, pvc)) == Some(s')
    ensures Attended(s', p)
  {
    var note := PvcChanged(key, Lookup(s.pvcs, key), pvc);
    NotedAppend(s.policies, s.notes, note, p);
    if p in s.policies && s.policies[p].selector.valid && p !in NamedBy(s.policies, note) {
      UnnamedChangeCountsSame(s.policies, s.pvcs, key, pvc, p);
    }
  }

  lemma ChangePolicyKeepsAttended(s: State, q: Key, selector: Option<Selector>, s': State, p: Key)
    requires Attended(s, p) && Next(s, ChangePolicy(q, selector)) == Some(s')
    ensures Attended(s', p)
  {
    NotedAppend(s'.policies, s.notes, PolicyChanged(q), p);
    if p != q {
      NotedBySelector(s.policies, s'.policies, s.notes, p);
    }
  }

  /** A new policy has counted nothing; an edit changes the selector and keeps the status. */
  lemma ChangePolicyMeans(s: State, p: Key, selector: Selector)
    ensures Next(s, ChangePolicy(p, Some(selector))).Some?
    ensures var s' := Next(s, ChangePolicy(p, Some(selector))).value;
            && p in s'.policies && s'.policies[p].selector == selector
            && s'.policies[p].matchedPVCs == (if p in s.policies then s.policies[p].matchedPVCs else 0)
            && s'.pvcs == s.pvcs
  {
  }

  lemma DeliverKeepsAttended(s: State, i: nat, s': State, p: Key)
    requires Attended(s, p) && Next(s, Deliver(i, true)) == Some(s')
    ensures Attended(s', p)
  {
    NotedWithout(s.policies, s.notes, i, p);
  }

  predicate MovesReconcile(e: Event) {
    e.Pick? || e.Acquire? || e.Get? || e.ListAndCount? || e.Fail? || e.Publish?
  }

  /** A step of another policy's reconcile does not concern p. */
  lemma OtherReconcileKeepsAttended(s: State, e: Event, s': State, p: Key)
    requires Attended(s, p) && Next(s, e) == Some(s') && MovesReconcile(e) && e.policy != p
    ensures Attended(s', p)
  {
    assert s.notes + [] == s.notes;
    NotedBySelector(s.policies, s'.policies, s.notes, p);
    NotedAppend(s'.policies, s.notes, PolicyChanged(e.policy), p);
  }

  lemma OwnReconcileKeepsAttended(s: State, e: Event, s': State, p: Key)
    requires Attended(s, p) && Next(s, e) == Some(s') && MovesReconcile(e) && e.policy == p
    ensures Attended(s', p)
  {
    assert s.notes + [] == s.notes;
    NotedBySelector(s.policies, s'.policies, s.notes, p);
    NotedAppend(s'.policies, s.notes, PolicyChanged(p), p);
  }

  lemma StepKeepsAttended(s: State, e: Event, s': State, p: Key)
    requires Attended(s, p) && Next(s, e) == Some(s') && (e.Deliver? ==> e.listed)
    ensures Attended(s', p)
  {
    if e.ChangePvc? {
      ChangePvcKeepsAttended(s, e.key, e.pvc, s', p);
    } else if e.ChangePolicy? {
      ChangePolicyKeepsAttended(s, e.policy, e.selector, s', p);
    } else if e.Deliver? {
      DeliverKeepsAttended(s, e.i, s', p);
    } else if MovesReconcile(e) {
      if e.policy == p {
        OwnReconcileKeepsAttended(s, e, s', p);
      } else {
        OtherReconcileKeepsAttended(s, e, s', p);
      }
    }
  }

  lemma {:induction false} RunsStayAttended(r: Run, p: Key)
    requires IsRun(r) && ListsSucceed(r)
    ensures Attended(Last(r), p)
  {
    if r.Then? {
      RunsStayAttended(r.before, p);
      StepKeepsAttended(Last(r.before), r.event, r.state, p);
    }
  }

  /** In every run whose mapping lists succeed, a policy that is neither queued nor in flight,
      and that no undelivered change names, has a valid selector and a status that counts
      exactly the PVCs it matches. */
  lemma {:induction false} StatusIsRightAtRest(r: Run, p: Key)
    requires IsRun(r) && ListsSucceed(r)
    requires p in Last(r).policies && !Due(Last(r), p) && p !in Last(r).processing
    ensures Last(r).policies[p].selector.valid
    ensures Last(r).policies[p].matchedPVCs == |Matching(Last(r).pvcs, p.namespace, Last(r).policies[p].selector)|
  {
    RunsStayAttended(r, p);
  }

  /** A policy whose selector does not convert is due, or in flight towards its next error. */
  ghost predicate Retried(s: State, p: Key) {
    p in s.policies && !s.policies[p].selector.valid ==>
      Due(s, p) || (p in s.processing && HeadsForError(s.processing[p], s.policies[p].selector))
  }

  ghost predicate HeadsForError(x: Reconcile, selector: Selector) {
    !x.Counted? && (x.Fetched? ==> x.selector == selector)
  }

  /** The handler of a PVC change never names such a policy, so nothing is lost when its list
      call fails. */
  lemma DeliverKeepsRetried(s: State, i: nat, listed: bool, s': State, p: Key)
    requires Retried(s, p) && Next(s, Deliver(i, listed)) == Some(s')
    ensures Retried(s', p)
  {
    NotedWithout(s.policies, s.notes, i, p);
  }

  lemma ReconcileKeepsRetried(s: State, e: Event, s': State, p: Key)
    requires Retried(s, p) && Next(s, e) == Some(s') && MovesReconcile(e)
    ensures Retried(s', p)
  {
    assert s.notes + [] == s.notes;
    NotedBySelector(s.policies, s'.policies, s.notes, p);
    NotedAppend(s'.policies, s.notes, PolicyChanged(e.policy), p);
  }

  lemma RetriedStep(s: State, e: Event, s': State, p: Key)
    requires Retried(s, p) && Next(s, e) == Some(s')
    ensures Retried(s', p)
  {
    if e.ChangePvc? {
      NotedAppend(s.policies, s.notes, PvcChanged(e.key, Lookup(s.pvcs, e.key), e.pvc), p);
    } else if e.ChangePolicy? {
      NotedAppend(s'.policies, s.notes, PolicyChanged(e.policy), p);
      if p != e.policy {
        NotedBySelector(s.policies, s'.policies, s.notes, p);
      }
    } else if e.Deliver? {
      DeliverKeepsRetried(s, e.i, e.listed, s', p);
    } else if MovesReconcile(e) {
      ReconcileKeepsRetried(s, e, s', p);
    }
  }

  lemma {:induction false} RunsStayRetried(r: Run, p: Key)
    requires IsRun(r)
    ensures Retried(Last(r), p)
  {
    if r.Then? {
      RunsStayRetried(r.before, p);
      RetriedStep(Last(r.before), r.event, r.state, p);
    }
  }

  /** A policy whose selector does not convert is never at rest, whatever list calls fail: it is
      due, or in flight with nothing counted for it. */
  lemma {:induction false} InvalidSelectorNeverRests(r: Run, p: Key)
    requires IsRun(r) && p in Last(r).policies && !Last(r).policies[p].selector.valid
    ensures Due(Last(r), p) || (p in Last(r).processing && !Last(r).processing[p].Counted?)
  {
    RunsStayRetried(r, p);
  }

  // ---- A list call of the mapping that fails ----

  lemma MatchingAfterChange(pvcs: Pvcs, key: Key, pvc: Option<Pvc>, namespace: string, selector: Selector)
    requires selector.valid
    ensures var others := Matching(pvcs, namespace, selector) - {key};
            && Matching(pvcs, namespace, selector)
               == others + (if key.namespace == namespace && Selects(selector, Lookup(pvcs, key)) then {key} else {})
            && Matching(SetPvc(pvcs, key, pvc), namespace, selector)
               == others + (if key.namespace == namespace && Selects(selector, pvc) then {key} else {})
  {
  }

  lemma SizeWith(others: set<Key>, key: Key, included: bool)
    requires key !in others
    ensures |others + (if included then {key} else {})| == |others| + if included then 1 else 0
  {
    assert others + {} == others;
  }

  /** A change of one PVC alters what a valid selector counts exactly when it changes whether
      the selector selects that PVC. */
  lemma CountChangesIff(pvcs: Pvcs, key: Key, pvc: Option<Pvc>, namespace: string, selector: Selector)
    requires selector.valid
    ensures |Matching(SetPvc(pvcs, key, pvc), namespace, selector)| != |Matching(pvcs, namespace, selector)| <==>
            key.namespace == namespace && Selects(selector, Lookup(pvcs, key)) != Selects(selector, pvc)
  {
    var others := Matching(pvcs, namespace, selector) - {key};
    MatchingAfterChange(pvcs, key, pvc, namespace, selector);
    SizeWith(others, key, key.namespace == namespace && Selects(selector, Lookup(pvcs, key)));
    SizeWith(others, key, key.namespace == namespace && Selects(selector, pvc));
  }

  /** What p would be given by a reconcile now differs from its status. */
  predicate Stale(s: State, p: Key) {
    p in s.policies && s.policies[p].matchedPVCs != |Matching(s.pvcs, p.namespace, s.policies[p].selector)|
  }

  /** The PVC changes, and the list call for its watch event fails. */
  function ChangeUnheard(s: State, key: Key, pvc: Option<Pvc>): State {
    s.(pvcs := SetPvc(s.pvcs, key, pvc))
  }

  lemma ChangeThenFailedList(s: State, key: Key, pvc: Option<Pvc>, s1: State, s2: State)
    requires Next(s, ChangePvc(key, pvc)) == Some(s1) && Next(s1, Deliver(|s.notes|, false)) == Some(s2)
    ensures s2 == ChangeUnheard(s, key, pvc)
  {
    assert Without(s1.notes, |s.notes|) == s.notes;
  }

  /** A policy at rest with the right status, which nothing will wake, is left at rest with a
      stale status by a PVC change whose list call fails, exactly when the change makes the PVC
      match or stop matching. */
  lemma FailedListLeavesStaleIff(s: State, p: Key, key: Key, pvc: Option<Pvc>, s1: State, s2: State)
    requires p in s.policies && p !in s.processing && !Due(s, p)
    requires Right(s.policies, s.pvcs, p, s.policies[p].matchedPVCs)
    requires Next(s, ChangePvc(key, pvc)) == Some(s1) && Next(s1, Deliver(|s.notes|, false)) == Some(s2)
    ensures p in s2.policies && p !in s2.processing && !Due(s2, p)
    ensures Stale(s2, p) <==>
            key.namespace == p.namespace
            && Selects(s.policies[p].selector, Lookup(s.pvcs, key)) != Selects(s.policies[p].selector, pvc)
  {
    ChangeThenFailedList(s, key, pvc, s1, s2);
    CountChangesIff(s.pvcs, key, pvc, p.namespace, s.policies[p].selector);
  }

  /** A reconcile that has counted publishes a stale count after such a change, exactly when the
      change makes the PVC match or stop matching. */
  lemma FailedListPublishesStaleIff(s: State, p: Key, key: Key, pvc: Option<Pvc>, s1: State, s2: State, s3: State)
    requires p in s.policies && p in s.processing && s.processing[p].Counted? && !Due(s, p)
    requires Right(s.policies, s.pvcs, p, s.processing[p].count)
    requires Next(s, ChangePvc(key, pvc)) == Some(s1) && Next(s1, Deliver(|s.notes|, false)) == Some(s2)
    requires Next(s2, Publish(p, false)) == Some(s3)
    ensures p in s3.policies && p !in s3.processing && !Due(s3, p)
    ensures Stale(s3, p) <==>
            key.namespace == p.namespace
            && Selects(s.policies[p].selector, Lookup(s.pvcs, key)) != Selects(s.policies[p].selector, pvc)
  {
    ChangeThenFailedList(s, key, pvc, s1, s2);
    CountChangesIff(s.pvcs, key, pvc, p.namespace, s.policies[p].selector);
    assert s3.notes == s.notes;
    NotedBySelector(s.policies, s3.policies, s.notes, p);
  }

  lemma CountThenPublish(s: State, p: Key, s1: State, s2: State)
    requires p in s.policies && p in s.processing && s.processing[p] == Fetched(s.policies[p].selector)
    requires Next(s, ListAndCount(p)) == Some(s1) && Next(s1, Publish(p, false)) == Some(s2)
    ensures p in s2.policies && !Stale(s2, p) && p !in s2.processing
  {
    assert s1.pvcs == s.pvcs && s1.policies == s.policies;
    assert s1.processing[p] == Counted(|Matching(s.pvcs, p.namespace, s.policies[p].selector)|);
  }

  /** A reconcile that has only fetched its policy lists the PVCs after the change: whatever the
      mapping missed, it publishes the right count. */
  lemma FailedListBeforeCountingIsHarmless(s: State, p: Key, key: Key, pvc: Option<Pvc>, s1: State, s2: State,
                                           s3: State, s4: State)
    requires p in s.policies && p in s.processing && s.processing[p] == Fetched(s.policies[p].selector)
    requires Next(s, ChangePvc(key, pvc)) == Some(s1) && Next(s1, Deliver(|s.notes|, false)) == Some(s2)
    requires Next(s2, ListAndCount(p)) == Some(s3) && Next(s3, Publish(p, false)) == Some(s4)
    ensures p in s4.policies && !Stale(s4, p) && p !in s4.processing
  {
    ChangeThenFailedList(s, key, pvc, s1, s2);
    CountThenPublish(s2, p, s3, s4);
  }

  ghost function Extended(r: Run, e: Event): (r': Run)
    requires IsRun(r) && Next(Last(r), e).Some?
    ensures IsRun(r')
  {
    Then(r, e, Next(Last(r), e).value)
  }

  function Lone(p: Key, selector: Selector, queue: set<Key>, processing: map<Key, Reconcile>): State {
    State(map[p := PolicyObject(selector, 0)], map[], [], queue, processing)
  }

  lemma LoneIsFetched(p: Key, selector: Selector) returns (r: Run)
    ensures IsRun(r) && Last(r) == Lone(p, selector, {}, map[p := Fetched(selector)])
  {
    r := Start(Lone(p, selector, {p}, map[]));
    r := Extended(r, Pick(p));
    assert Last(r) == Lone(p, selector, {}, map[p := Blocked]);
    assert Holders(map[p := Blocked]) == {};
    r := Extended(r, Acquire(p));
    assert Last(r) == Lone(p, selector, {}, map[p := Holding]);
    r := Extended(r, Get(p));
  }

  /** A policy without PVCs comes to rest. */
  lemma ComesToRest(p: Key, selector: Selector) returns (r: Run)
    requires selector.valid
    ensures IsRun(r) && Last(r) == Lone(p, selector, {}, map[])
  {
    r := LoneIsFetched(p, selector);
    assert Matching(map[], p.namespace, selector) == {};
    r := Extended(r, ListAndCount(p));
    assert Last(r) == Lone(p, selector, {}, map[p := Counted(0)]);
    r := Extended(r, Publish(p, false));
  }

  /** Such a run exists for every PVC: it is created, a policy that matches it is at rest, and
      the one list call of the mapping fails. */
  lemma {:induction false} FailedListLeavesStaleStatus(p: Key, key: Key, pvc: Pvc, selector: Selector) returns (r: Run)
    requires Selects(selector, Some(pvc)) && key.namespace == p.namespace
    ensures IsRun(r) && !ListsSucceed(r)
    ensures var s := Last(r);
            && p in s.policies && s.queue == {} && s.notes == [] && s.processing == map[]
            && s.policies[p].matchedPVCs == 0 && |Matching(s.pvcs, p.namespace, s.policies[p].selector)| == 1
  {
    r := ComesToRest(p, selector);
    r := Extended(r, ChangePvc(key, Some(pvc)));
    r := Extended(r, Deliver(0, false));
    assert Matching(Last(r).pvcs, p.namespace, selector) == {key};
  }

  // ---- The semaphore ----

  /** At most ten reconciles are past the semaphore. */
  lemma {:induction false} SlotsAreBounded(r: Run)
    requires IsRun(r)
    ensures |Holders(Last(r).processing)| <= 10
  {
    if r.Start? {
      assert Holders(map[]) == {};
    } else {
      SlotsAreBounded(r.before);
      SlotsStayBounded(Last(r.before), r.event, r.state);
    }
  }

  /** A step takes a slot only while one is free. */
  lemma SlotFrame(s: State, e: Event, s': State)
    requires Next(s, e) == Some(s')
    ensures s'.processing == s.processing
         || (MovesReconcile(e) && s'.processing == s.processing - {e.policy})
         || (MovesReconcile(e) && e.policy in s'.processing
             && s'.processing == s.processing[e.policy := s'.processing[e.policy]]
             && (|Holders(s.processing)| < SLOTS || !HasSlot(s'.processing[e.policy])
                 || (e.policy in s.processing && HasSlot(s.processing[e.policy]))))
  {
  }

  /** A blocked reconcile gets in exactly while fewer than ten are past the semaphore. */
  lemma EntersIff(s: State, p: Key)
    requires p in s.processing && s.processing[p].Blocked?
    ensures Next(s, Acquire(p)).Some? <==> |Holders(s.processing)| < 10
  {
  }

  /** An error at any point past the semaphore puts the policy back on the queue. */
  lemma FailureRequeues(s: State, p: Key)
    requires p in s.processing && HasSlot(s.processing[p])
    ensures Next(s, Fail(p)).Some?
    ensures p in Next(s, Fail(p)).value.queue && p !in Next(s, Fail(p)).value.processing
  {
  }

  lemma HoldersAfter(processing: map<Key, Reconcile>, p: Key, x: Reconcile)
    ensures Holders(processing[p := x]) == if HasSlot(x) then Holders(processing) + {p} else Holders(processing) - {p}
    ensures Holders(processing - {p}) == Holders(processing) - {p}
  {
  }

  lemma SlotsStayBounded(s: State, e: Event, s': State)
    requires |Holders(s.processing)| <= SLOTS && Next(s, e) == Some(s')
    ensures |Holders(s'.processing)| <= SLOTS
  {
    SlotFrame(s, e, s');
    if s'.processing != s.processing {
      var held := Holders(s.processing);
      FewerHold(held - {e.policy}, held);
      if e.policy in s'.processing {
        HoldersAfter(s.processing, e.policy, s'.processing[e.policy]);
        assert e.policy in held ==> held + {e.policy} == held;
      } else {
        HoldersAfter(s.processing, e.policy, Blocked);
      }
    }
  }

  lemma FewerHold(part: set<Key>, whole: set<Key>)
    requires part <= whole
    ensures |part| <= |whole|
  {
    assert whole == part + (whole - part);
  }
}
