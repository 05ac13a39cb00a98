/** The expander, the group coordinator, users and the API server interleaved, one API call or
    local decision at a time. Reads may be stale; updates are optimistic. */
module Cluster {
  import opened Kube
  import opened Annotations
  import opened ApiServer
  import opened Coordinator
  import opened Expander

  datatype Settings = Settings(codec: Codec, global: GlobalConfig)

  /** A version the API server has stored. */
  datatype Entry = Entry(key: Key, pvc: Pvc)

  /** The API server: current objects and every version it ever stored. */
  datatype Api = Api(revision: nat, pvcs: Pvcs, history: map<nat, Entry>)

  /** One expander attempt in flight; any number may be, from any number of replicas. `at` is
      the clock at the last decision: passing the guards, then taking the stamp. */
  datatype Worker =
    | Configured(key: Key, snap: Pvc, config: PvcConfig)
    | Cleared(key: Key, snap: Pvc, config: PvcConfig, at: int)
    | Sending(key: Key, snap: Pvc, config: PvcConfig, at: int, size: int)

  /** One group reconcile in flight. */
  datatype Reconcile =
    | Picked
    | Fetched(status: GroupStatus)
    | Coordinating(status: GroupStatus, listed: Pvcs, todo: set<Key>)

  /** A change the informer has applied to its cache and not yet handed to the handler. */
  datatype Notice =
    | PvcChanged(key: Key, before: Option<Pvc>, after: Option<Pvc>)
    | GroupChanged(group: Key)

  /** The coordinator: groups and their status, pending notices, the work queue (with items marked
      dirty while processed), and the reconciles in flight. */
  datatype Control = Control(
    groups: map<Key, GroupStatus>, notices: seq<Notice>, queue: set<Key>, processing: map<Key, Reconcile>)

  /** A successful expansion and the time it was stamped with. */
  datatype Expansion = Expansion(key: Key, at: int)

  /** `view` is the coordinator's informer cache. */
  datatype State = State(
    clock: int, api: Api, policies: map<string, seq<Policy>>, view: Pvcs, control: Control,
    workers: map<nat, Worker>, expansions: seq<Expansion>)

  datatype Event =
    | Tick(to: int)
    | SetPolicies(policies: map<string, seq<Policy>>)
    | Edit(key: Key, pvc: Pvc)                    // anyone else creates or updates a PVC
    | Remove(key: Key)
    | Deliver(key: Key, version: nat)             // the informer sees a stored version
    | DeliverRemoval(key: Key)                    // the informer sees that an object is gone
    | StartWorker(w: nat, version: nat)           // the expander resolves a listed, maybe stale, copy
    | PassGuards(w: nat)
    | BuildUpdate(w: nat)
    | Send(w: nat)                                // the update is accepted
    | DropWorker(w: nat)                          // any guard, failure or refusal
    | Raise(group: Key, key: Key)                 // the coordinator's update is accepted
    | Coordinate(step: GroupStep)

  datatype GroupStep =
    | PutGroup(group: Key, status: GroupStatus)   // a group is created or edited
    | RemoveGroup(group: Key)
    | HandleNotice(i: nat)                        // the handler enqueues the groups a notice names
    | Enqueue(group: Key)                         // timers and resyncs
    | Pick(group: Key)
    | Get(group: Key)
    | List(group: Key)
    | Skip(group: Key, key: Key)
    | Fail(group: Key)                            // any error of a reconcile: it is retried
    | Publish(group: Key, echo: bool)             // status update; its own watch event may follow

  // ---- Steps ----

  function Store(api: Api, key: Key, pvc: Pvc): Api {
    Api(api.revision + 1, Put(api.pvcs, api.revision, key, pvc),
        api.history[api.revision := Entry(key, pvc.(version := api.revision))])
  }

  /** findPVCGroupForPVC: the group a watch event about this object names. */
  function GroupFor(key: Key, pvc: Option<Pvc>): set<Key> {
    if pvc.Some? && Note(pvc.value.annotations, GROUP) != ""
    then {Key(key.namespace, Note(pvc.value.annotations, GROUP))}
    else {}
  }

  function Wakes(notice: Notice): set<Key> {
    match notice
    case PvcChanged(key, before, after) => GroupFor(key, before) + GroupFor(key, after)
    case GroupChanged(g) => {g}
  }

  function ConfigOf(c: Settings, policies: map<string, seq<Policy>>, key: Key,
                    pvc: Pvc): Result<PvcConfig, ResolveError>
  {
    ResolvePVCConfig(c.codec, pvc.annotations, pvc.labels, Some(GetOr(Lookup(policies, key.namespace), [])), c.global)
  }

  function Resolve(c: Settings, s: State, version: nat): Option<Worker> {
    if version !in s.api.history then None
    else
      var entry := s.api.history[version];
      var config := ConfigOf(c, s.policies, entry.key, entry.pvc);
      if config.Err? then None else Some(Configured(entry.key, entry.pvc, config.value))
  }

  function Guarded(x: Worker, now: int): Option<Worker> {
    if !x.Configured? || !IsPVCEligible(x.snap) || IsPvcResizing(x.snap) || IsInCooldown(x.config, now) then None
    else Some(Cleared(x.key, x.snap, x.config, now))
  }

  function Built(c: Settings, x: Worker, now: int): Option<Worker> {
    if !x.Cleared? then None
    else
      var size := NewSize(c.codec, x.config, x.snap);
      if size.Err? then None else Some(Sending(x.key, x.snap, x.config, now, size.value))
  }

  /** The object a worker sends. */
  function Sent(c: Settings, x: Worker): Pvc
    requires x.Sending?
  {
    WithExpansion(c.codec, x.snap, x.size, x.at)
  }

  function WithWorker(s: State, w: nat, x: Option<Worker>): Option<State> {
    if x.None? then None else Some(s.(workers := s.workers[w := x.value]))
  }

  function SendNext(c: Settings, s: State, w: nat): Option<State> {
    if w !in s.workers || !s.workers[w].Sending?
      || !IsCurrent(s.api.pvcs, s.workers[w].key, s.workers[w].snap) then None
    else
      var x := s.workers[w];
      Some(s.(api := Store(s.api, x.key, Sent(c, x)), workers := s.workers - {w},
              expansions := s.expansions + [Expansion(x.key, x.at)]))
  }

  /** The reconcile of g still has this member to handle. */
  predicate AtMember(k: Control, g: Key, key: Key) {
    && g in k.processing && k.processing[g].Coordinating?
    && key in k.processing[g].todo && key in k.processing[g].listed
  }

  function Handled(k: Control, g: Key, key: Key): Control
    requires AtMember(k, g, key)
  {
    k.(processing := k.processing[g := k.processing[g].(todo := k.processing[g].todo - {key})])
  }

  /** The object a coordinator update sends: the listed copy with the largest request. */
  ghost function RaisedCopy(k: Control, g: Key, key: Key): Pvc
    requires AtMember(k, g, key)
  {
    k.processing[g].listed[key].(request := Largest(k.processing[g].listed))
  }

  ghost function RaiseNext(s: State, g: Key, key: Key): Option<State> {
    if !AtMember(s.control, g, key) then None
    else
      var copy := s.control.processing[g].listed[key];
      if copy.request >= Largest(s.control.processing[g].listed) || !IsCurrent(s.api.pvcs, key, copy) then None
      else Some(s.(api := Store(s.api, key, RaisedCopy(s.control, g, key)), control := Handled(s.control, g, key)))
  }

  ghost function GroupNext(view: Pvcs, k: Control, e: GroupStep): Option<Control> {
    match e
    case PutGroup(g, status) =>
      if g.name == "" then None else Some(k.(groups := k.groups[g := status], notices := k.notices + [GroupChanged(g)]))
    case RemoveGroup(g) => Some(k.(groups := k.groups - {g}, notices := k.notices + [GroupChanged(g)]))
    case HandleNotice(i) =>
      if i >= |k.notices| then None
      else Some(k.(notices := Without(k.notices, i), queue := k.queue + Wakes(k.notices[i])))
    case Enqueue(g) => Some(k.(queue := k.queue + {g}))
    case Pick(g) =>
      if g in k.queue && g !in k.processing
      then Some(k.(queue := k.queue - {g}, processing := k.processing[g := Picked]))
      else None
    case Get(g) =>
      if g !in k.processing || !k.processing[g].Picked? then None
      else if g !in k.groups then Some(k.(processing := k.processing - {g}))
      else Some(k.(processing := k.processing[g := Fetched(k.groups[g])]))
    case List(g) =>
      if g !in k.processing || !k.processing[g].Fetched? then None
      else
        var listed := Members(view, g);
        var x := Coordinating(ReportedStatus(k.processing[g].status, listed), listed, listed.Keys);
        Some(k.(processing := k.processing[g := x]))
    case Skip(g, key) =>
      if !AtMember(k, g, key) || k.processing[g].listed[key].request < Largest(k.processing[g].listed) then None
      else Some(Handled(k, g, key))
    case Fail(g) =>
      if g in k.processing then Some(k.(processing := k.processing - {g}, queue := k.queue + {g})) else None
    case Publish(g, echo) =>
      if g in k.processing && k.processing[g].Coordinating? && k.processing[g].todo == {} && g in k.groups
      then
        Some(Control(k.groups[g := k.processing[g].status], k.notices + if echo then [GroupChanged(g)] else [],
                     k.queue, k.processing - {g}))
      else None
  }

  /** The informer's cache changes at `key`, and the handler is to be told. */
  function Viewing(s: State, view: Pvcs, key: Key): State {
    var notice := PvcChanged(key, Lookup(s.view, key), Lookup(view, key));
    s.(view := view, control := s.control.(notices := s.control.notices + [notice]))
  }

  function DeliverNext(s: State, key: Key, version: nat): Option<State> {
    if version !in s.api.history || s.api.history[version].key != key
      || (key in s.view && version <= s.view[key].version) then None
    else
      var pvc := s.api.history[version].pvc;
      Some(Viewing(s, s.view[key := pvc], key))
  }

  function DeliverRemovalNext(s: State, key: Key): Option<State> {
    if key in s.view && (key !in s.api.pvcs || s.api.pvcs[key].version != s.view[key].version)
    then Some(Viewing(s, s.view - {key}, key))
    else None
  }

  /** The state after an event, None when the event cannot happen. */
  ghost function Next(c: Settings, s: State, e: Event): Option<State> {
    match e
    case Tick(to) => if s.clock <= to then Some(s.(clock := to)) else None
    case SetPolicies(policies) => Some(s.(policies := policies))
    case Edit(key, pvc) => Some(s.(api := Store(s.api, key, pvc)))
    case Remove(key) => Some(s.(api := s.api.(pvcs := s.api.pvcs - {key})))
    case Deliver(key, version) => DeliverNext(s, key, version)
    case DeliverRemoval(key) => DeliverRemovalNext(s, key)
    case StartWorker(w, version) => if w in s.workers then None else WithWorker(s, w, Resolve(c, s, version))
    case PassGuards(w) => if w !in s.workers then None else WithWorker(s, w, Guarded(s.workers[w], s.clock))
    case BuildUpdate(w) => if w !in s.workers then None else WithWorker(s, w, Built(c, s.workers[w], s.clock))
    case Send(w) => SendNext(c, s, w)
    case DropWorker(w) => Some(s.(workers := s.workers - {w}))
    case Raise(g, key) => RaiseNext(s, g, key)
    case Coordinate(step) =>
      var k := GroupNext(s.view, s.control, step);
      if k.None? then None else Some(s.(control := k.value))
  }

  // ---- Runs ----

  datatype Run = Start(first: State) | Then(before: Run, event: Event, state: State)

  function Last(r: Run): State {
    match r
    case Start(s) => s
    case Then(_, _, s) => s
  }

  /** Any stored objects; no attempt in flight; the initial list of groups is queued. */
  ghost predicate Initial(s: State) {
    && Versioned(s)
    && s.control.groups.Keys <= s.control.queue
    && (forall g :: g in s.control.groups ==> g.name != "")
    && s.control.processing == map[] && s.workers == map[] && s.expansions == []
  }

  ghost predicate IsRun(c: Settings, r: Run) {
    match r
    case Start(s) => Initial(s)
    case Then(before, e, s) => IsRun(c, before) && Next(c, Last(before), e) == Some(s)
  }

  // ---- Versions ----

  /** The API server stored exactly this object under this key at its version. */
  predicate Known(api: Api, key: Key, pvc: Pvc) {
    pvc.version in api.history && api.history[pvc.version] == Entry(key, pvc)
  }

  predicate MemberOf(key: Key, pvc: Pvc, group: Key) {
    key.namespace == group.namespace && IsMember(pvc, group.name)
  }

  /** Versions identify stored objects. */
  ghost predicate StoreVersioned(api: Api) {
    && (forall r :: r in api.history ==> r < api.revision && api.history[r].pvc.version == r)
    && (forall k :: k in api.pvcs ==> Known(api, k, api.pvcs[k]))
  }

  ghost predicate ViewVersioned(api: Api, view: Pvcs) {
    forall k :: k in view ==> Known(api, k, view[k])
  }

  ghost predicate WorkersVersioned(api: Api, workers: map<nat, Worker>) {
    forall w :: w in workers ==> Known(api, workers[w].key, workers[w].snap)
  }

  /** What a reconcile has listed are stored members of its group. */
  ghost predicate ListingVersioned(api: Api, g: Key, x: Reconcile) {
    x.Coordinating? ==> forall k :: k in x.listed ==> Known(api, k, x.listed[k]) && MemberOf(k, x.listed[k], g)
  }

  /** Every copy anyone holds is a version the API server stored. */
  ghost predicate Versioned(s: State) {
    && StoreVersioned(s.api) && ViewVersioned(s.api, s.view) && WorkersVersioned(s.api, s.workers)
    && forall g :: g in s.control.processing ==> ListingVersioned(s.api, g, s.control.processing[g])
  }

  lemma CurrentCopyIsTheObject(api: Api, key: Key, pvc: Pvc)
    requires StoreVersioned(api) && Known(api, key, pvc) && IsCurrent(api.pvcs, key, pvc)
    ensures api.pvcs[key] == pvc
  {
  }

  /** The API server's versions only grow. */
  ghost predicate Grows(api: Api, api': Api) {
    && api.revision <= api'.revision
    && forall k, p :: Known(api, k, p) ==> Known(api', k, p)
  }

  lemma StoreGrows(api: Api, key: Key, pvc: Pvc)
    requires StoreVersioned(api)
    ensures StoreVersioned(Store(api, key, pvc)) && Grows(api, Store(api, key, pvc))
  {
    forall k, p | Known(api, k, p)
      ensures Known(Store(api, key, pvc), k, p)
    {
      assert p.version < api.revision;
    }
  }

  /** The object an event stores, if it stores one. */
  ghost function Stored(c: Settings, s: State, e: Event): Option<Entry> {
    match e
    case Edit(key, pvc) => Some(Entry(key, pvc))
    case Send(w) =>
      if w in s.workers && s.workers[w].Sending? then Some(Entry(s.workers[w].key, Sent(c, s.workers[w]))) else None
    case Raise(g, key) => if AtMember(s.control, g, key) then Some(Entry(key, RaisedCopy(s.control, g, key))) else None
    case _ => None
  }

  /** What a step does to the API server. */
  lemma StepStores(c: Settings, s: State, e: Event, s': State)
    requires Next(c, s, e) == Some(s')
    ensures Stored(c, s, e).Some? ==> s'.api == Store(s.api, Stored(c, s, e).value.key, Stored(c, s, e).value.pvc)
    ensures Stored(c, s, e).None? ==> s'.api == s.api.(pvcs := s'.api.pvcs)
    ensures Stored(c, s, e).None? && !e.Remove? ==> s'.api == s.api
  {
  }

  lemma ApiStaysVersioned(c: Settings, s: State, e: Event, s': State)
    requires StoreVersioned(s.api) && Next(c, s, e) == Some(s')
    ensures StoreVersioned(s'.api) && Grows(s.api, s'.api)
  {
    StepStores(c, s, e, s');
    var stored := Stored(c, s, e);
    if stored.Some? {
      StoreGrows(s.api, stored.value.key, stored.value.pvc);
    }
  }

  lemma WorkersStayVersioned(c: Settings, s: State, e: Event, s': State)
    requires StoreVersioned(s.api) && WorkersVersioned(s.api, s.workers) && Next(c, s, e) == Some(s')
    ensures WorkersVersioned(s'.api, s'.workers)
  {
    ApiStaysVersioned(c, s, e, s');
  }

  lemma ViewStaysVersioned(c: Settings, s: State, e: Event, s': State)
    requires StoreVersioned(s.api) && ViewVersioned(s.api, s.view) && Next(c, s, e) == Some(s')
    ensures ViewVersioned(s'.api, s'.view)
  {
    ApiStaysVersioned(c, s, e, s');
  }

  lemma StoreOutdates(api: Api, key: Key, pvc: Pvc, snap: Pvc)
    requires StoreVersioned(api) && Known(api, key, snap)
    ensures !IsCurrent(Store(api, key, pvc).pvcs, key, snap)
  {
  }

  /** A copy that is current after a step was current before it. */
  lemma CurrencyComesFromBefore(c: Settings, s: State, e: Event, s': State, key: Key, snap: Pvc)
    requires StoreVersioned(s.api) && Known(s.api, key, snap) && Next(c, s, e) == Some(s')
    requires IsCurrent(s'.api.pvcs, key, snap)
    ensures IsCurrent(s.api.pvcs, key, snap)
    ensures Stored(c, s, e).Some? ==> Stored(c, s, e).value.key != key
  {
    StepStores(c, s, e, s');
    var stored := Stored(c, s, e);
    if stored.Some? && stored.value.key == key {
      StoreOutdates(s.api, key, stored.value.pvc, snap);
    } else if e.Remove? {
      assert s'.api.pvcs == s.api.pvcs - {e.key};
    }
  }

  /** Worker x of slot w is left alone or comes from a decision taken in s. */
  predicate Stems(c: Settings, s: State, version: nat, w: nat, x: Worker) {
    if w in s.workers then
      x == s.workers[w] || Some(x) == Guarded(s.workers[w], s.clock) || Some(x) == Built(c, s.workers[w], s.clock)
    else Some(x) == Resolve(c, s, version)
  }

  lemma WorkerOrigin(c: Settings, s: State, e: Event, s': State, w: nat)
    requires Next(c, s, e) == Some(s') && w in s'.workers
    ensures Stems(c, s, if e.StartWorker? then e.version else 0, w, s'.workers[w])
    ensures (w in s.workers && s'.workers[w] == s.workers[w]) || s'.api == s.api
  {
  }

  /** A reconcile that is coordinating has just listed or was coordinating the same listing. */
  lemma ReconcileOrigin(view: Pvcs, k: Control, e: GroupStep, k': Control, g: Key)
    requires GroupNext(view, k, e) == Some(k') && g in k'.processing && k'.processing[g].Coordinating?
    ensures var x' := k'.processing[g];
            || (e == List(g) && x'.listed == Members(view, g) && x'.todo == x'.listed.Keys
                && exists status :: x'.status == ReportedStatus(status, x'.listed))
            || (g in k.processing && k.processing[g].Coordinating? && x'.listed == k.processing[g].listed
                && x'.status == k.processing[g].status && x'.todo <= k.processing[g].todo)
  {
  }

  /** A reconcile in hand after a step was in hand before, with the same listing, or has just
      listed. */
  lemma ListingOrigin(c: Settings, s: State, e: Event, s': State, g: Key)
    requires Next(c, s, e) == Some(s') && g in s'.control.processing && s'.control.processing[g].Coordinating?
    ensures var x' := s'.control.processing[g];
            x'.listed == Members(s.view, g)
            || (g in s.control.processing && s.control.processing[g].Coordinating?
                && x'.listed == s.control.processing[g].listed)
  {
    if e.Coordinate? {
      ReconcileOrigin(s.view, s.control, e.step, s'.control, g);
    }
  }

  lemma ListingsStayVersioned(c: Settings, s: State, e: Event, s': State, g: Key)
    requires Versioned(s) && Next(c, s, e) == Some(s') && g in s'.control.processing
    ensures ListingVersioned(s'.api, g, s'.control.processing[g])
  {
    ApiStaysVersioned(c, s, e, s');
    if s'.control.processing[g].Coordinating? {
      ListingOrigin(c, s, e, s', g);
      ListingTravels(s.api, s'.api, s.view, g, s.control.processing, s'.control.processing[g]);
    }
  }

  lemma ListingTravels(api: Api, api': Api, view: Pvcs, g: Key, processing: map<Key, Reconcile>, x': Reconcile)
    requires ViewVersioned(api, view) && Grows(api, api') && x'.Coordinating?
    requires g in processing ==> ListingVersioned(api, g, processing[g])
    requires x'.listed == Members(view, g)
          || (g in processing && processing[g].Coordinating? && x'.listed == processing[g].listed)
    ensures ListingVersioned(api', g, x')
  {
    forall k | k in x'.listed
      ensures Known(api', k, x'.listed[k]) && MemberOf(k, x'.listed[k], g)
    {
      assert Known(api, k, x'.listed[k]);
    }
  }

  lemma VersionedStep(c: Settings, s: State, e: Event, s': State)
    requires Versioned(s) && Next(c, s, e) == Some(s')
    ensures Versioned(s')
  {
    ApiStaysVersioned(c, s, e, s');
    WorkersStayVersioned(c, s, e, s');
    ViewStaysVersioned(c, s, e, s');
    forall g | g in s'.control.processing
      ensures ListingVersioned(s'.api, g, s'.control.processing[g])
    {
      ListingsStayVersioned(c, s, e, s', g);
    }
  }
}
