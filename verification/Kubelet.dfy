/** Volume metrics: the cache all nodes fill at once (pkg/kubelet/cache.go) and the scan for
    one PVC (pkg/kubelet/metrics.go). Percentages are exact rationals. */
module Kubelet {
  import opened Kube
  import Text

  datatype VolumeMetrics = VolumeMetrics(
    capacity: int, available: int, used: int, usagePercent: real,
    inodesTotal: int, inodesUsed: int, inodesFree: int, inodesPercent: real)

  datatype Field = Capacity | Available | InodesTotal | InodesUsed

  /** One parsed sample of one of the four volume statistics. */
  datatype Sample = Sample(pvc: Key, field: Field, value: int)

  type Records = map<string, VolumeMetrics>

  const BLANK := VolumeMetrics(0, 0, 0, 0.0, 0, 0, 0, 0.0)

  function CacheKey(pvc: Key): string {
    pvc.namespace + "/" + pvc.name
  }

  predicate Named(pvc: Key) {
    pvc.name != "" && pvc.namespace != ""
  }

  function Stored(vm: VolumeMetrics, field: Field): int {
    match field
    case Capacity => vm.capacity
    case Available => vm.available
    case InodesTotal => vm.inodesTotal
    case InodesUsed => vm.inodesUsed
  }

  function WithField(vm: VolumeMetrics, field: Field, value: int): VolumeMetrics {
    match field
    case Capacity => vm.(capacity := value)
    case Available => vm.(available := value)
    case InodesTotal => vm.(inodesTotal := value)
    case InodesUsed => vm.(inodesUsed := value)
  }

  /** What one setter call does to the cache. */
  function Record(data: Records, s: Sample): Records {
    var key := CacheKey(s.pvc);
    data[key := WithField(if key in data then data[key] else BLANK, s.field, s.value)]
  }

  function RecordAll(data: Records, calls: seq<Sample>): Records {
    if calls == [] then data
    else Record(RecordAll(data, calls[..|calls| - 1]), calls[|calls| - 1])
  }

  function WithPercentages(vm: VolumeMetrics): VolumeMetrics {
    var withUsage :=
      if vm.capacity > 0 then
        var used := vm.capacity - vm.available;
        vm.(used := used, usagePercent := used as real / vm.capacity as real * 100.0)
      else vm;
    if vm.inodesTotal > 0 then
      withUsage.(inodesFree := vm.inodesTotal - vm.inodesUsed,
                 inodesPercent := vm.inodesUsed as real / vm.inodesTotal as real * 100.0)
    else withUsage
  }

  function Percentages(data: Records): Records {
    map key | key in data :: WithPercentages(data[key])
  }

  /** The samples of one family, in report order; samples without both labels are skipped. */
  function Family(report: seq<Sample>, field: Field): seq<Sample> {
    if report == [] then []
    else
      var last := report[|report| - 1];
      Family(report[..|report| - 1], field) + if last.field == field && Named(last.pvc) then [last] else []
  }

  /** The setter calls one node makes for its report: family after family. */
  function NodeCalls(report: seq<Sample>): seq<Sample> {
    Family(report, Capacity) + Family(report, Available) + Family(report, InodesTotal) + Family(report, InodesUsed)
  }

  class MetricsCache {
    var data: Records

    constructor ()
      ensures data == map[]
    {
      data := map[];
    }

    method SetField(pvc: Key, field: Field, value: int)
      modifies this
      ensures data == Record(old(data), Sample(pvc, field, value))
    {
      var key := CacheKey(pvc);
      if key !in data {
        data := data[key := BLANK];
      }
      data := data[key := WithField(data[key], field, value)];
    }

    method FetchFamily(report: seq<Sample>, field: Field)
      modifies this
      ensures data == RecordAll(old(data), Family(report, field))
    {
      for i := 0 to |report|
        invariant data == RecordAll(old(data), Family(report[..i], field))
      {
        assert report[..i + 1][..i] == report[..i];
        if report[i].field == field && Named(report[i].pvc) {
          var before := Family(report[..i], field);
          assert (before + [report[i]])[..|before|] == before;
          SetField(report[i].pvc, field, report[i].value);
        } else {
          assert Family(report[..i + 1], field) == Family(report[..i], field);
        }
      }
      assert report[..|report|] == report;
    }

    /** fetchNodeMetrics, after the response is parsed. */
    method FetchNode(report: seq<Sample>)
      modifies this
      ensures data == RecordAll(old(data), NodeCalls(report))
    {
      FetchFamily(report, Capacity);
      FetchFamily(report, Available);
      FetchFamily(report, InodesTotal);
      FetchFamily(report, InodesUsed);
      var c, a, t := Family(report, Capacity), Family(report, Available), Family(report, InodesTotal);
      RecordAllAppends(old(data), c, a);
      RecordAllAppends(old(data), c + a, t);
      RecordAllAppends(old(data), c + a + t, Family(report, InodesUsed));
    }

    method CalculateUsagePercentages()
      modifies this
      ensures data == Percentages(old(data))
    {
      var todo := data.Keys;
      while todo != {}
        invariant todo <= data.Keys == old(data).Keys
        invariant forall key :: key in data ==>
                    data[key] == if key in todo then old(data)[key] else WithPercentages(old(data)[key])
        decreases todo
      {
        var key :| key in todo;
        var vm := data[key];
        if vm.capacity > 0 {
          var used := vm.capacity - vm.available;
          vm := vm.(used := used, usagePercent := used as real / vm.capacity as real * 100.0);
        }
        if vm.inodesTotal > 0 {
          vm := vm.(inodesFree := vm.inodesTotal - vm.inodesUsed,
                    inodesPercent := vm.inodesUsed as real / vm.inodesTotal as real * 100.0);
        }
        data := data[key := vm];
        todo := todo - {key};
      }
    }

    method Get(pvc: Key) returns (vm: Option<VolumeMetrics>)
      ensures vm == Lookup(data, CacheKey(pvc))
    {
      var key := CacheKey(pvc);
      vm := if key in data then Some(data[key]) else None;
    }
  }

  lemma {:induction false} RecordAllAppends(data: Records, a: seq<Sample>, b: seq<Sample>)
    ensures RecordAll(RecordAll(data, a), b) == RecordAll(data, a + b)
  {
    if b == [] {
      assert a + b == a;
    } else {
      RecordAllAppends(data, a, b[..|b| - 1]);
      assert (a + b)[..|a + b| - 1] == a + b[..|b| - 1];
    }
  }

  // ---- What a filled cache holds ----

  /** The last value recorded for a field under a cache key. */
  function Latest(calls: seq<Sample>, key: string, field: Field): Option<int> {
    if calls == [] then None
    else
      var last := calls[|calls| - 1];
      if CacheKey(last.pvc) == key && last.field == field then Some(last.value)
      else Latest(calls[..|calls| - 1], key, field)
  }

  function OrZero(value: Option<int>): int {
    if value.Some? then value.value else 0
  }

  ghost predicate Sampled(calls: seq<Sample>, key: string) {
    exists s :: s in calls && CacheKey(s.pvc) == key
  }

  function RecordOf(calls: seq<Sample>, key: string): VolumeMetrics {
    VolumeMetrics(OrZero(Latest(calls, key, Capacity)), OrZero(Latest(calls, key, Available)), 0, 0.0,
                  OrZero(Latest(calls, key, InodesTotal)), OrZero(Latest(calls, key, InodesUsed)), 0, 0.0)
  }

  /** The cache holds exactly the sampled keys, each with the last value of every field. */
  lemma {:induction false} CacheHoldsLatest(calls: seq<Sample>, key: string)
    ensures key in RecordAll(map[], calls) <==> Sampled(calls, key)
    ensures key in RecordAll(map[], calls) ==> RecordAll(map[], calls)[key] == RecordOf(calls, key)
    ensures key !in RecordAll(map[], calls) ==> RecordOf(calls, key) == BLANK
  {
    if calls != [] {
      var front, last := calls[..|calls| - 1], calls[|calls| - 1];
      CacheHoldsLatest(front, key);
      assert forall s :: s in calls <==> s in front || s == last;
    }
  }

  // ---- Confluence of the concurrent fill ----

  /** `calls` interleaves the nodes' call sequences, each in its own order. */
  ghost predicate IsInterleaving(nodes: seq<seq<Sample>>, calls: seq<Sample>)
    decreases |calls|
  {
    if calls == [] then forall i :: 0 <= i < |nodes| ==> nodes[i] == []
    else
      exists i ::
        0 <= i < |nodes| && Makes(nodes, i, calls[0]) && IsInterleaving(nodes[i := nodes[i][1..]], calls[1..])
  }

  /** Node i's next call is `call`. */
  predicate Makes(nodes: seq<seq<Sample>>, i: nat, call: Sample)
    requires i < |nodes|
  {
    nodes[i] != [] && nodes[i][0] == call
  }

  /** Nodes that report a field of a PVC end with the same value for it. */
  ghost predicate AgreeAtLast(nodes: seq<seq<Sample>>) {
    forall i, j, key, field ::
      0 <= i < |nodes| && 0 <= j < |nodes|
      && Latest(nodes[i], key, field).Some? && Latest(nodes[j], key, field).Some? ==>
        Latest(nodes[i], key, field) == Latest(nodes[j], key, field)
  }

  /** Whatever the schedule, the cache ends up the same. */
  ghost predicate Confluent(nodes: seq<seq<Sample>>) {
    forall a, b :: IsInterleaving(nodes, a) && IsInterleaving(nodes, b) ==> RecordAll(map[], a) == RecordAll(map[], b)
  }

  function AllSamples(nodes: seq<seq<Sample>>): set<Sample> {
    set i, s | 0 <= i < |nodes| && s in nodes[i] :: s
  }

  lemma SamplesAfterCall(nodes: seq<seq<Sample>>, i: nat)
    requires i < |nodes| && nodes[i] != []
    ensures AllSamples(nodes) == {nodes[i][0]} + AllSamples(nodes[i := nodes[i][1..]])
  {
    var rest := nodes[i := nodes[i][1..]];
    assert nodes[i] == [nodes[i][0]] + rest[i];
    forall s | s in AllSamples(nodes)
      ensures s in {nodes[i][0]} + AllSamples(rest)
    {
      var j :| 0 <= j < |nodes| && s in nodes[j];
      assert s != nodes[i][0] ==> s in rest[j];
    }
    forall s | s in {nodes[i][0]} + AllSamples(rest)
      ensures s in AllSamples(nodes)
    {
      if s in AllSamples(rest) {
        var j :| 0 <= j < |rest| && s in rest[j];
        assert s in nodes[j];
      } else {
        assert s in nodes[i];
      }
    }
  }

  lemma {:induction false} InterleavingMakesEveryCall(nodes: seq<seq<Sample>>, calls: seq<Sample>)
    requires IsInterleaving(nodes, calls)
    ensures forall s :: s in calls <==> s in AllSamples(nodes)
    decreases |calls|
  {
    if calls != [] {
      var i :| 0 <= i < |nodes| && Makes(nodes, i, calls[0]) && IsInterleaving(nodes[i := nodes[i][1..]], calls[1..]);
      var rest := nodes[i := nodes[i][1..]];
      InterleavingMakesEveryCall(rest, calls[1..]);
      SamplesAfterCall(nodes, i);
      assert forall s :: s in calls <==> s == calls[0] || s in calls[1..];
    }
  }

  lemma {:induction false} LatestAppends(a: seq<Sample>, b: seq<Sample>, key: string, field: Field)
    ensures Latest(a + b, key, field) == OrElse(Latest(b, key, field), Latest(a, key, field))
  {
    if b == [] {
      assert a + b == a;
    } else {
      LatestAppends(a, b[..|b| - 1], key, field);
      assert (a + b)[..|a + b| - 1] == a + b[..|b| - 1];
    }
  }

  /** The last value an interleaving records is the last value of one of the nodes. */
  lemma {:induction false} LatestOfSomeNode(nodes: seq<seq<Sample>>, calls: seq<Sample>, key: string, field: Field)
    requires IsInterleaving(nodes, calls)
    ensures Latest(calls, key, field).Some? ==>
              exists i :: 0 <= i < |nodes| && Latest(nodes[i], key, field) == Latest(calls, key, field)
    ensures Latest(calls, key, field).None? ==>
              forall i :: 0 <= i < |nodes| ==> Latest(nodes[i], key, field).None?
    decreases |calls|
  {
    if calls != [] {
      var i :| 0 <= i < |nodes| && Makes(nodes, i, calls[0]) && IsInterleaving(nodes[i := nodes[i][1..]], calls[1..]);
      var rest := nodes[i := nodes[i][1..]];
      LatestOfSomeNode(rest, calls[1..], key, field);
      assert calls == [calls[0]] + calls[1..] && nodes[i] == [calls[0]] + rest[i];
      LatestAppends([calls[0]], calls[1..], key, field);
      LatestAppends([calls[0]], rest[i], key, field);
      if Latest(calls[1..], key, field).Some? {
        var k :| 0 <= k < |rest| && Latest(rest[k], key, field) == Latest(calls[1..], key, field);
        assert Latest(nodes[k], key, field) == Latest(calls, key, field);
      } else {
        assert Latest(nodes[i], key, field) == Latest(calls, key, field);
        forall k | 0 <= k < |nodes| && Latest(calls, key, field).None?
          ensures Latest(nodes[k], key, field).None?
        {
          assert Latest(rest[k], key, field).None?;
        }
      }
    }
  }

  lemma AgreementFixesLatest(nodes: seq<seq<Sample>>, a: seq<Sample>, b: seq<Sample>, key: string, field: Field)
    requires IsInterleaving(nodes, a) && IsInterleaving(nodes, b) && AgreeAtLast(nodes)
    ensures Latest(a, key, field) == Latest(b, key, field)
  {
    LatestOfSomeNode(nodes, a, key, field);
    LatestOfSomeNode(nodes, b, key, field);
  }

  /** Every schedule leaves exactly the sampled PVCs. */
  lemma FillHoldsTheSampled(nodes: seq<seq<Sample>>, calls: seq<Sample>)
    requires IsInterleaving(nodes, calls)
    ensures RecordAll(map[], calls).Keys == set s | s in AllSamples(nodes) :: CacheKey(s.pvc)
  {
    InterleavingMakesEveryCall(nodes, calls);
    var keys := set s | s in AllSamples(nodes) :: CacheKey(s.pvc);
    forall key
      ensures key in RecordAll(map[], calls) <==> key in keys
    {
      CacheHoldsLatest(calls, key);
    }
  }

  lemma AgreementFixesCache(nodes: seq<seq<Sample>>, a: seq<Sample>, b: seq<Sample>)
    requires IsInterleaving(nodes, a) && IsInterleaving(nodes, b) && AgreeAtLast(nodes)
    ensures RecordAll(map[], a) == RecordAll(map[], b)
  {
    var ca, cb := RecordAll(map[], a), RecordAll(map[], b);
    FillHoldsTheSampled(nodes, a);
    FillHoldsTheSampled(nodes, b);
    forall key | key in ca
      ensures ca[key] == cb[key]
    {
      CacheHoldsLatest(a, key);
      CacheHoldsLatest(b, key);
      AgreementFixesLatest(nodes, a, b, key, Capacity);
      AgreementFixesLatest(nodes, a, b, key, Available);
      AgreementFixesLatest(nodes, a, b, key, InodesTotal);
      AgreementFixesLatest(nodes, a, b, key, InodesUsed);
    }
  }

  lemma FirstCall(nodes: seq<seq<Sample>>, i: nat, calls: seq<Sample>)
    requires i < |nodes| && nodes[i] != [] && IsInterleaving(nodes[i := nodes[i][1..]], calls)
    ensures IsInterleaving(nodes, [nodes[i][0]] + calls)
  {
    var all := [nodes[i][0]] + calls;
    assert all[1..] == calls && Makes(nodes, i, all[0]);
  }

  lemma {:induction false} OnlyNodeLeft(nodes: seq<seq<Sample>>, i: nat)
    requires i < |nodes| && forall j :: 0 <= j < |nodes| && j != i ==> nodes[j] == []
    ensures IsInterleaving(nodes, nodes[i])
    decreases |nodes[i]|
  {
    if nodes[i] != [] {
      OnlyNodeLeft(nodes[i := nodes[i][1..]], i);
      FirstCall(nodes, i, nodes[i][1..]);
      assert [nodes[i][0]] + nodes[i][1..] == nodes[i];
    }
  }

  /** Node i may make all its calls after everyone else. */
  lemma {:induction false} NodeRunsLast(nodes: seq<seq<Sample>>, i: nat, calls: seq<Sample>)
    requires i < |nodes| && IsInterleaving(nodes[i := []], calls)
    ensures IsInterleaving(nodes, calls + nodes[i])
    decreases |calls|
  {
    var others := nodes[i := []];
    if calls == [] {
      assert forall j :: 0 <= j < |nodes| && j != i ==> nodes[j] == others[j];
      OnlyNodeLeft(nodes, i);
      assert calls + nodes[i] == nodes[i];
    } else {
      var k :| 0 <= k < |others| && Makes(others, k, calls[0])
          && IsInterleaving(others[k := others[k][1..]], calls[1..]);
      assert nodes[k := nodes[k][1..]][i := []] == others[k := others[k][1..]];
      NodeRunsLast(nodes[k := nodes[k][1..]], i, calls[1..]);
      FirstCall(nodes, k, calls[1..] + nodes[i]);
      assert [calls[0]] + (calls[1..] + nodes[i]) == calls + nodes[i];
    }
  }

  /** Some schedule leaves the last value of node i. */
  lemma LatestOfNodeIsReachable(nodes: seq<seq<Sample>>, i: nat, key: string, field: Field) returns (calls: seq<Sample>)
    requires i < |nodes| && Latest(nodes[i], key, field).Some?
    ensures IsInterleaving(nodes, calls) && Latest(calls, key, field) == Latest(nodes[i], key, field)
  {
    var others := nodes[i := []];
    SequentialIsInterleaving(others);
    NodeRunsLast(nodes, i, Concat(others));
    LatestAppends(Concat(others), nodes[i], key, field);
    calls := Concat(others) + nodes[i];
  }

  lemma {:induction false} LatestIsSampled(calls: seq<Sample>, key: string, field: Field)
    requires Latest(calls, key, field).Some?
    ensures Sampled(calls, key)
  {
    var front, last := calls[..|calls| - 1], calls[|calls| - 1];
    if CacheKey(last.pvc) != key || last.field != field {
      LatestIsSampled(front, key, field);
    }
    assert last in calls && forall s :: s in front ==> s in calls;
  }

  lemma CacheShowsLatest(calls: seq<Sample>, key: string, field: Field)
    requires Latest(calls, key, field).Some?
    ensures key in RecordAll(map[], calls)
    ensures Stored(RecordAll(map[], calls)[key], field) == Latest(calls, key, field).value
  {
    LatestIsSampled(calls, key, field);
    CacheHoldsLatest(calls, key);
  }

  /** However the nodes' setter calls interleave, the cache ends up the same, exactly when the
      nodes agree on the last values they report. */
  lemma FillIsConfluentIff(nodes: seq<seq<Sample>>)
    ensures Confluent(nodes) <==> AgreeAtLast(nodes)
  {
    if AgreeAtLast(nodes) {
      forall a, b | IsInterleaving(nodes, a) && IsInterleaving(nodes, b)
        ensures RecordAll(map[], a) == RecordAll(map[], b)
      {
        AgreementFixesCache(nodes, a, b);
      }
    } else {
      var i, j, key, field :|
        0 <= i < |nodes| && 0 <= j < |nodes|
        && Latest(nodes[i], key, field).Some? && Latest(nodes[j], key, field).Some?
        && Latest(nodes[i], key, field) != Latest(nodes[j], key, field);
      var a := LatestOfNodeIsReachable(nodes, i, key, field);
      var b := LatestOfNodeIsReachable(nodes, j, key, field);
      CacheShowsLatest(a, key, field);
      CacheShowsLatest(b, key, field);
    }
  }

  /** Behind a custom kubelet URL every node loads the same report: the schedule leaves no trace
      even if the report repeats a series with different values. */
  lemma SameReportIsConfluent(nodes: seq<seq<Sample>>, calls: seq<Sample>)
    requires forall i :: 0 <= i < |nodes| ==> nodes[i] == calls
    ensures Confluent(nodes)
  {
    FillIsConfluentIff(nodes);
  }

  /** Namespaces without a slash keep distinct PVCs apart in the cache. */
  lemma CacheKeyIsInjective(p: Key, q: Key)
    requires '/' !in p.namespace && '/' !in q.namespace
    ensures CacheKey(p) == CacheKey(q) <==> p == q
  {
    Text.SplitAfterSeparator(p.namespace, p.name, '/');
    Text.SplitAfterSeparator(q.namespace, q.name, '/');
    if CacheKey(p) == CacheKey(q) {
      assert p.namespace == Text.Split(CacheKey(p), '/')[0] == q.namespace;
      assert p.name == CacheKey(p)[|p.namespace| + 1..];
      assert q.name == CacheKey(q)[|q.namespace| + 1..];
    }
  }

  /** The nodes' calls one node after the other. */
  function Concat(nodes: seq<seq<Sample>>): seq<Sample> {
    if nodes == [] then [] else nodes[0] + Concat(nodes[1..])
  }

  lemma {:induction false} IdleNodeInterleaves(nodes: seq<seq<Sample>>, calls: seq<Sample>)
    requires IsInterleaving(nodes, calls)
    ensures IsInterleaving([[]] + nodes, calls)
    decreases |calls|
  {
    if calls != [] {
      var i :| 0 <= i < |nodes| && Makes(nodes, i, calls[0]) && IsInterleaving(nodes[i := nodes[i][1..]], calls[1..]);
      IdleNodeInterleaves(nodes[i := nodes[i][1..]], calls[1..]);
      var more := [[]] + nodes;
      assert more[i + 1 := more[i + 1][1..]] == [[]] + nodes[i := nodes[i][1..]];
      FirstCall(more, i + 1, calls[1..]);
      assert [calls[0]] + calls[1..] == calls;
    }
  }

  lemma {:induction false} FirstNodeThenRest(first: seq<Sample>, nodes: seq<seq<Sample>>, calls: seq<Sample>)
    requires IsInterleaving(nodes, calls)
    ensures IsInterleaving([first] + nodes, first + calls)
    decreases |first|
  {
    var all := [first] + nodes;
    if first == [] {
      IdleNodeInterleaves(nodes, calls);
      assert first + calls == calls;
    } else {
      FirstNodeThenRest(first[1..], nodes, calls);
      assert all[0 := all[0][1..]] == [first[1..]] + nodes;
      FirstCall(all, 0, first[1..] + calls);
      assert [first[0]] + (first[1..] + calls) == first + calls;
    }
  }

  lemma {:induction false} SequentialIsInterleaving(nodes: seq<seq<Sample>>)
    ensures IsInterleaving(nodes, Concat(nodes))
  {
    if nodes != [] {
      SequentialIsInterleaving(nodes[1..]);
      FirstNodeThenRest(nodes[0], nodes[1..], Concat(nodes[1..]));
      assert [nodes[0]] + nodes[1..] == nodes;
    }
  }

  // ---- The bulk fetch ----

  /** The calls of each node; a node whose fetch fails makes none. */
  function CallsOf(reports: seq<Option<seq<Sample>>>): (nodes: seq<seq<Sample>>)
    ensures |nodes| == |reports|
    ensures forall i :: 0 <= i < |reports| ==> nodes[i] == if reports[i].Some? then NodeCalls(reports[i].value) else []
  {
    if reports == [] then []
    else [if reports[0].Some? then NodeCalls(reports[0].value) else []] + CallsOf(reports[1..])
  }

  predicate Fetched(reports: Option<seq<Option<seq<Sample>>>>) {
    reports.Some? && reports.value != [] && forall i :: 0 <= i < |reports.value| ==> reports.value[i].Some?
  }

  function Total(nodes: seq<seq<Sample>>): nat {
    |Concat(nodes)|
  }

  lemma {:induction false} CallLeavesFewer(nodes: seq<seq<Sample>>, i: nat)
    requires i < |nodes| && nodes[i] != []
    ensures Total(nodes[i := nodes[i][1..]]) == Total(nodes) - 1
  {
    var rest := nodes[i := nodes[i][1..]];
    if i == 0 {
      assert rest[1..] == nodes[1..];
    } else {
      CallLeavesFewer(nodes[1..], i - 1);
      assert rest[1..] == nodes[1..][i - 1 := nodes[i][1..]];
    }
  }

  /** Every continuation of the calls that are left continues `calls`. */
  ghost predicate SoFar(nodes: seq<seq<Sample>>, calls: seq<Sample>, pending: seq<seq<Sample>>) {
    forall tail :: IsInterleaving(pending, tail) ==> IsInterleaving(nodes, calls + tail)
  }

  lemma SoFarStep(nodes: seq<seq<Sample>>, calls: seq<Sample>, pending: seq<seq<Sample>>, i: nat)
    requires SoFar(nodes, calls, pending) && i < |pending| && pending[i] != []
    ensures SoFar(nodes, calls + [pending[i][0]], pending[i := pending[i][1..]])
  {
    forall tail | IsInterleaving(pending[i := pending[i][1..]], tail)
      ensures IsInterleaving(nodes, calls + [pending[i][0]] + tail)
    {
      FirstCall(pending, i, tail);
      assert calls + [pending[i][0]] + tail == calls + ([pending[i][0]] + tail);
    }
  }

  /** fetchAllNodeMetrics: all nodes at once, one setter call after the other in any order the
      scheduler picks. None stands for a failed list of nodes, or for a node that fails. */
  method FetchAllNodeMetrics(cache: MetricsCache, reports: Option<seq<Option<seq<Sample>>>>)
    returns (ok: bool, ghost calls: seq<Sample>)
    modifies cache
    ensures ok <==> Fetched(reports)
    ensures ok ==> IsInterleaving(CallsOf(reports.value), calls) && cache.data == RecordAll(old(cache.data), calls)
  {
    calls := [];
    if reports.None? || reports.value == [] {
      return false, calls;
    }
    var pending := CallsOf(reports.value);
    ghost var nodes := pending;
    assert SoFar(nodes, calls, pending) by {
      assert forall tail: seq<Sample> :: [] + tail == tail;
    }
    while exists i :: 0 <= i < |pending| && pending[i] != []
      invariant SoFar(nodes, calls, pending)
      invariant cache.data == RecordAll(old(cache.data), calls)
      decreases Total(pending)
    {
      var i :| 0 <= i < |pending| && pending[i] != [];
      SoFarStep(nodes, calls, pending, i);
      CallLeavesFewer(pending, i);
      var call := pending[i][0];
      cache.SetField(call.pvc, call.field, call.value);
      assert (calls + [call])[..|calls|] == calls;
      calls, pending := calls + [call], pending[i := pending[i][1..]];
    }
    assert IsInterleaving(pending, []) && calls + [] == calls;
    ok := forall i :: 0 <= i < |reports.value| ==> reports.value[i].Some?;
  }

  /** GetAllVolumeMetrics: with agreeing reports the schedule leaves no trace; the records are
      those of fetching the nodes one after the other. */
  method GetAllVolumeMetrics(reports: Option<seq<Option<seq<Sample>>>>) returns (cache: MetricsCache, ok: bool)
    ensures ok <==> Fetched(reports)
    ensures ok && AgreeAtLast(CallsOf(reports.value)) ==>
              cache.data == Percentages(RecordAll(map[], Concat(CallsOf(reports.value))))
  {
    cache := new MetricsCache();
    ghost var calls;
    ok, calls := FetchAllNodeMetrics(cache, reports);
    if !ok {
      return;
    }
    ghost var nodes := CallsOf(reports.value);
    SequentialIsInterleaving(nodes);
    if AgreeAtLast(nodes) {
      AgreementFixesCache(nodes, calls, Concat(nodes));
    }
    cache.CalculateUsagePercentages();
  }

  // ---- The scan for one PVC ----

  function ScanLatest(lines: seq<Sample>, pvc: Key, field: Field): int {
    if lines == [] then 0
    else
      var last := lines[|lines| - 1];
      if last.pvc == pvc && last.field == field then last.value
      else ScanLatest(lines[..|lines| - 1], pvc, field)
  }

  function ScanResult(capacity: int, available: int, inodesTotal: int, inodesUsed: int): Option<VolumeMetrics> {
    if capacity == 0 || available == 0 then None
    else
      var used := if available > capacity then 0 else capacity - available;
      var percent := if available > capacity then 0.0 else used as real / capacity as real * 100.0;
      var overfull := inodesUsed > inodesTotal;
      var free := if inodesTotal <= 0 || overfull then 0 else inodesTotal - inodesUsed;
      var inodesPercent :=
        if inodesTotal <= 0 then 0.0
        else if overfull then 100.0
        else inodesUsed as real / inodesTotal as real * 100.0;
      Some(VolumeMetrics(capacity, available, used, percent, inodesTotal, inodesUsed, free, inodesPercent))
  }

  function Scan(lines: seq<Sample>, pvc: Key): Option<VolumeMetrics> {
    ScanResult(ScanLatest(lines, pvc, Capacity), ScanLatest(lines, pvc, Available),
               ScanLatest(lines, pvc, InodesTotal), ScanLatest(lines, pvc, InodesUsed))
  }

  /** parseVolumeMetrics, after the regular expression has matched the lines. */
  method ParseVolumeMetrics(lines: seq<Sample>, pvc: Key) returns (r: Option<VolumeMetrics>)
    ensures r == Scan(lines, pvc)
  {
    var capacity, available, inodesTotal, inodesUsed := 0, 0, 0, 0;
    for i := 0 to |lines|
      invariant capacity == ScanLatest(lines[..i], pvc, Capacity)
      invariant available == ScanLatest(lines[..i], pvc, Available)
      invariant inodesTotal == ScanLatest(lines[..i], pvc, InodesTotal)
      invariant inodesUsed == ScanLatest(lines[..i], pvc, InodesUsed)
    {
      assert lines[..i + 1][..i] == lines[..i];
      if lines[i].pvc == pvc {
        match lines[i].field {
          case Capacity => capacity := lines[i].value;
          case Available => available := lines[i].value;
          case InodesTotal => inodesTotal := lines[i].value;
          case InodesUsed => inodesUsed := lines[i].value;
        }
      }
    }
    assert lines[..|lines|] == lines;
    if capacity == 0 || available == 0 {
      return None;
    }
    var used, percent := 0, 0.0;
    if available <= capacity {
      used := capacity - available;
      percent := used as real / capacity as real * 100.0;
    }
    var free, inodesPercent := 0, 0.0;
    if inodesTotal > 0 {
      if inodesUsed > inodesTotal {
        inodesPercent := 100.0;
      } else {
        free := inodesTotal - inodesUsed;
        inodesPercent := inodesUsed as real / inodesTotal as real * 100.0;
      }
    }
    r := Some(VolumeMetrics(capacity, available, used, percent, inodesTotal, inodesUsed, free, inodesPercent));
  }

  // ---- The bulk cache against the scan ----

  /** What the bulk path answers for one PVC after loading one report. */
  function Bulk(lines: seq<Sample>, pvc: Key): Option<VolumeMetrics> {
    Lookup(Percentages(RecordAll(map[], NodeCalls(lines))), CacheKey(pvc))
  }

  predicate NoSlashes(lines: seq<Sample>) {
    forall i :: 0 <= i < |lines| ==> '/' !in lines[i].pvc.namespace
  }

  lemma {:induction false} LatestInFamily(lines: seq<Sample>, pvc: Key, family: Field, field: Field)
    requires NoSlashes(lines) && '/' !in pvc.namespace && Named(pvc)
    ensures field != family ==> Latest(Family(lines, family), CacheKey(pvc), field).None?
    ensures field == family ==>
              OrZero(Latest(Family(lines, family), CacheKey(pvc), field)) == ScanLatest(lines, pvc, field)
    ensures Sampled(Family(lines, family), CacheKey(pvc)) <==>
              exists s :: s in lines && s.pvc == pvc && s.field == family
  {
    if lines != [] {
      var front, last := lines[..|lines| - 1], lines[|lines| - 1];
      LatestInFamily(front, pvc, family, field);
      CacheKeyIsInjective(last.pvc, pvc);
      var before := Family(front, family);
      LatestAppends(before, [last], CacheKey(pvc), field);
      assert forall s :: s in lines <==> s in front || s == last;
      if last.field == family && Named(last.pvc) {
        assert [last][..0] == [];
        assert Family(lines, family) == before + [last];
      } else {
        assert Family(lines, family) == before;
      }
    }
  }

  lemma BulkSeesTheScan(lines: seq<Sample>, pvc: Key, field: Field)
    requires NoSlashes(lines) && '/' !in pvc.namespace && Named(pvc)
    ensures OrZero(Latest(NodeCalls(lines), CacheKey(pvc), field)) == ScanLatest(lines, pvc, field)
  {
    var key := CacheKey(pvc);
    var c, a, t, u :=
        Family(lines, Capacity), Family(lines, Available), Family(lines, InodesTotal), Family(lines, InodesUsed);
    LatestAppends(c, a, key, field);
    LatestAppends(c + a, t, key, field);
    LatestAppends(c + a + t, u, key, field);
    LatestInFamily(lines, pvc, Capacity, field);
    LatestInFamily(lines, pvc, Available, field);
    LatestInFamily(lines, pvc, InodesTotal, field);
    LatestInFamily(lines, pvc, InodesUsed, field);
  }

  ghost predicate Mentioned(lines: seq<Sample>, pvc: Key) {
    exists s :: s in lines && s.pvc == pvc
  }

  lemma BulkSamples(lines: seq<Sample>, pvc: Key)
    requires NoSlashes(lines) && '/' !in pvc.namespace && Named(pvc)
    ensures Sampled(NodeCalls(lines), CacheKey(pvc)) <==> Mentioned(lines, pvc)
  {
    var key := CacheKey(pvc);
    var c, a, t, u :=
        Family(lines, Capacity), Family(lines, Available), Family(lines, InodesTotal), Family(lines, InodesUsed);
    assert forall s :: s in NodeCalls(lines) <==> s in c || s in a || s in t || s in u;
    LatestInFamily(lines, pvc, Capacity, Capacity);
    LatestInFamily(lines, pvc, Available, Capacity);
    LatestInFamily(lines, pvc, InodesTotal, Capacity);
    LatestInFamily(lines, pvc, InodesUsed, Capacity);
    if Mentioned(lines, pvc) {
      var s :| s in lines && s.pvc == pvc;
      assert s.field in {Capacity, Available, InodesTotal, InodesUsed};
    }
  }

  /** The two readings of a report agree on a PVC exactly when it is not mentioned at all or
      its last values are consistent: 0 < available <= capacity, inodes used <= inodes. */
  lemma BulkRefinesScanIff(lines: seq<Sample>, pvc: Key)
    requires NoSlashes(lines) && '/' !in pvc.namespace && Named(pvc)
    requires forall s :: s in lines ==> s.value >= 0
    ensures Bulk(lines, pvc) == Scan(lines, pvc) <==> !Mentioned(lines, pvc) || Consistent(lines, pvc)
  {
    BulkRecord(lines, pvc);
    ScanIsNonNegative(lines, pvc, Capacity);
    ScanIsNonNegative(lines, pvc, Available);
    ScanIsNonNegative(lines, pvc, InodesTotal);
    ScanIsNonNegative(lines, pvc, InodesUsed);
    if Mentioned(lines, pvc) {
      ReadingsAgreeIff(ScanLatest(lines, pvc, Capacity), ScanLatest(lines, pvc, Available),
                       ScanLatest(lines, pvc, InodesTotal), ScanLatest(lines, pvc, InodesUsed));
    }
    UnmentionedScansToZero(lines, pvc, Capacity);
  }

  predicate Consistent(lines: seq<Sample>, pvc: Key) {
    && 0 < ScanLatest(lines, pvc, Available) <= ScanLatest(lines, pvc, Capacity)
    && (ScanLatest(lines, pvc, InodesTotal) > 0 ==>
        ScanLatest(lines, pvc, InodesUsed) <= ScanLatest(lines, pvc, InodesTotal))
  }

  lemma BulkRecord(lines: seq<Sample>, pvc: Key)
    requires NoSlashes(lines) && '/' !in pvc.namespace && Named(pvc)
    ensures Bulk(lines, pvc) == if Mentioned(lines, pvc) then
              Some(WithPercentages(VolumeMetrics(
                ScanLatest(lines, pvc, Capacity), ScanLatest(lines, pvc, Available), 0, 0.0,
                ScanLatest(lines, pvc, InodesTotal), ScanLatest(lines, pvc, InodesUsed), 0, 0.0)))
            else None
  {
    CacheHoldsLatest(NodeCalls(lines), CacheKey(pvc));
    BulkSamples(lines, pvc);
    BulkSeesTheScan(lines, pvc, Capacity);
    BulkSeesTheScan(lines, pvc, Available);
    BulkSeesTheScan(lines, pvc, InodesTotal);
    BulkSeesTheScan(lines, pvc, InodesUsed);
  }

  lemma ReadingsAgreeIff(c: int, a: int, t: int, u: int)
    requires c >= 0 && a >= 0 && t >= 0 && u >= 0
    ensures Some(WithPercentages(VolumeMetrics(c, a, 0, 0.0, t, u, 0, 0.0))) == ScanResult(c, a, t, u)
       <==> 0 < a <= c && (t > 0 ==> u <= t)
  {
  }

  lemma {:induction false} ScanIsNonNegative(lines: seq<Sample>, pvc: Key, field: Field)
    requires forall s :: s in lines ==> s.value >= 0
    ensures ScanLatest(lines, pvc, field) >= 0
  {
    if lines != [] {
      ScanIsNonNegative(lines[..|lines| - 1], pvc, field);
    }
  }

  lemma {:induction false} UnmentionedScansToZero(lines: seq<Sample>, pvc: Key, field: Field)
    ensures Mentioned(lines, pvc) || ScanLatest(lines, pvc, field) == 0
  {
    if lines != [] {
      var front, last := lines[..|lines| - 1], lines[|lines| - 1];
      UnmentionedScansToZero(front, pvc, field);
      assert forall s :: s in lines <==> s in front || s == last;
    }
  }

  /** On consistent values nothing is lost or invented: used and available make up the
      capacity, free and used make up the inodes, and percentages stay in range. */
  lemma ConsistentRecordsBalance(lines: seq<Sample>, pvc: Key)
    requires NoSlashes(lines) && '/' !in pvc.namespace && Named(pvc)
    requires forall s :: s in lines ==> s.value >= 0
    requires Consistent(lines, pvc)
    ensures Bulk(lines, pvc).Some?
    ensures var vm := Bulk(lines, pvc).value;
            && vm.used + vm.available == vm.capacity
            && 0.0 <= vm.usagePercent <= 100.0
            && (vm.inodesTotal > 0 ==> vm.inodesUsed <= vm.inodesTotal)
            && (vm.inodesFree + vm.inodesUsed == vm.inodesTotal <==> vm.inodesUsed <= vm.inodesTotal)
            && 0.0 <= vm.inodesPercent <= 100.0
  {
    BulkRecord(lines, pvc);
    UnmentionedScansToZero(lines, pvc, Capacity);
    ScanIsNonNegative(lines, pvc, InodesUsed);
    ScanIsNonNegative(lines, pvc, InodesTotal);
    var vm := Bulk(lines, pvc).value;
    PercentInRange(vm.capacity - vm.available, vm.capacity);
    if vm.inodesTotal > 0 {
      PercentInRange(vm.inodesUsed, vm.inodesTotal);
    }
  }

  lemma PercentInRange(part: int, whole: int)
    requires 0 <= part <= whole && whole > 0
    ensures 0.0 <= part as real / whole as real * 100.0 <= 100.0
  {
    var q := part as real / whole as real;
    assert q * whole as real == part as real;
    assert q > 1.0 ==> (q - 1.0) * whole as real > 0.0;
    assert q < 0.0 ==> (-q) * whole as real > 0.0;
  }

  // ---- What the readings mean ----

  lemma {:induction false} FamilyIs(report: seq<Sample>, field: Field, s: Sample)
    ensures s in Family(report, field) <==> s in report && s.field == field && s.pvc.name != "" && s.pvc.namespace != ""
  {
    if report != [] {
      var front, last := report[..|report| - 1], report[|report| - 1];
      FamilyIs(front, field, s);
      assert s in report <==> s in front || s == last;
    }
  }

  /** A node records exactly the samples that carry both a name and a namespace. */
  lemma NodeCallsAre(report: seq<Sample>, s: Sample)
    ensures s in NodeCalls(report) <==> s in report && s.pvc.name != "" && s.pvc.namespace != ""
  {
    FamilyIs(report, Capacity, s);
    FamilyIs(report, Available, s);
    FamilyIs(report, InodesTotal, s);
    FamilyIs(report, InodesUsed, s);
    assert s.field.Capacity? || s.field.Available? || s.field.InodesTotal? || s.field.InodesUsed?;
  }

  /** Sample i is about this field of this claim. */
  predicate IsAbout(lines: seq<Sample>, i: nat, pvc: Key, field: Field)
    requires i < |lines|
  {
    lines[i].pvc == pvc && lines[i].field == field
  }

  ghost predicate NoneAbout(lines: seq<Sample>, from: nat, pvc: Key, field: Field) {
    forall i :: from <= i < |lines| ==> !IsAbout(lines, i, pvc, field)
  }

  /** The scan reads the last sample of a field. */
  lemma {:induction false} ScanReadsTheLast(lines: seq<Sample>, pvc: Key, field: Field, i: nat)
    requires i < |lines| && IsAbout(lines, i, pvc, field) && NoneAbout(lines, i + 1, pvc, field)
    ensures ScanLatest(lines, pvc, field) == lines[i].value
  {
    var n := |lines| - 1;
    if i < n {
      assert !IsAbout(lines, n, pvc, field);
      assert forall j :: 0 <= j < n ==> (IsAbout(lines[..n], j, pvc, field) <==> IsAbout(lines, j, pvc, field));
      ScanReadsTheLast(lines[..n], pvc, field, i);
    }
  }

  /** Without any sample of the field it reads zero. */
  lemma {:induction false} ScanReadsZero(lines: seq<Sample>, pvc: Key, field: Field)
    requires NoneAbout(lines, 0, pvc, field)
    ensures ScanLatest(lines, pvc, field) == 0
  {
    if lines != [] {
      var n := |lines| - 1;
      assert !IsAbout(lines, n, pvc, field);
      assert forall j :: 0 <= j < n ==> (IsAbout(lines[..n], j, pvc, field) <==> IsAbout(lines, j, pvc, field));
      ScanReadsZero(lines[..n], pvc, field);
    }
  }

  /** `percent` is what part is of whole. */
  predicate IsShare(percent: real, part: int, whole: int) {
    percent * whole as real == part as real * 100.0
  }

  lemma ShareOf(part: int, whole: int)
    requires whole != 0
    ensures IsShare(part as real / whole as real * 100.0, part, whole)
  {
    var w, q := whole as real, part as real / whole as real;
    assert q * w == part as real;
    assert q * 100.0 * w == q * w * 100.0;
  }

  /** The scan finds nothing without a capacity and a free size, and otherwise clamps what the
      samples say: never less than nothing used, never more than every inode. */
  lemma ScanMeans(lines: seq<Sample>, pvc: Key)
    ensures var c, a := ScanLatest(lines, pvc, Capacity), ScanLatest(lines, pvc, Available);
            var t, u := ScanLatest(lines, pvc, InodesTotal), ScanLatest(lines, pvc, InodesUsed);
            var r := Scan(lines, pvc);
            && (r.None? <==> c == 0 || a == 0)
            && (r.Some? ==> ClampedRecord(r.value, c, a, t, u))
  {
    var c, a := ScanLatest(lines, pvc, Capacity), ScanLatest(lines, pvc, Available);
    var t, u := ScanLatest(lines, pvc, InodesTotal), ScanLatest(lines, pvc, InodesUsed);
    if c != 0 {
      ShareOf(c - a, c);
    }
    if t > 0 {
      ShareOf(u, t);
    }
  }

  predicate ClampedRecord(vm: VolumeMetrics, c: int, a: int, t: int, u: int) {
    && vm.capacity == c && vm.available == a && vm.inodesTotal == t && vm.inodesUsed == u
    && (a > c ==> vm.used == 0 && vm.usagePercent == 0.0)
    && (a <= c ==> vm.used == c - a && IsShare(vm.usagePercent, c - a, c))
    && (t <= 0 ==> vm.inodesFree == 0 && vm.inodesPercent == 0.0)
    && (t > 0 && u > t ==> vm.inodesFree == 0 && vm.inodesPercent == 100.0)
    && (0 < t && u <= t ==> vm.inodesFree == t - u && IsShare(vm.inodesPercent, u, t))
  }

  /** The bulk path keeps the samples' values as they are, clamping nothing: where there is a
      capacity, used and available always make it up, and likewise for inodes. */
  lemma BulkMeans(lines: seq<Sample>, pvc: Key)
    requires NoSlashes(lines) && '/' !in pvc.namespace && Named(pvc)
    ensures Bulk(lines, pvc).Some? <==> Mentioned(lines, pvc)
    ensures Bulk(lines, pvc).Some? ==>
              PlainRecord(Bulk(lines, pvc).value,
                          ScanLatest(lines, pvc, Capacity), ScanLatest(lines, pvc, Available),
                          ScanLatest(lines, pvc, InodesTotal), ScanLatest(lines, pvc, InodesUsed))
  {
    BulkRecord(lines, pvc);
    RecordIsPlain(ScanLatest(lines, pvc, Capacity), ScanLatest(lines, pvc, Available),
                  ScanLatest(lines, pvc, InodesTotal), ScanLatest(lines, pvc, InodesUsed));
  }

  lemma RecordIsPlain(c: int, a: int, t: int, u: int)
    ensures PlainRecord(WithPercentages(VolumeMetrics(c, a, 0, 0.0, t, u, 0, 0.0)), c, a, t, u)
  {
    if c > 0 {
      ShareOf(c - a, c);
    }
    if t > 0 {
      ShareOf(u, t);
    }
  }

  predicate PlainRecord(vm: VolumeMetrics, c: int, a: int, t: int, u: int) {
    && vm.capacity == c && vm.available == a && vm.inodesTotal == t && vm.inodesUsed == u
    && (c > 0 ==> vm.used + a == c && IsShare(vm.usagePercent, vm.used, c))
    && (c <= 0 ==> vm.used == 0 && vm.usagePercent == 0.0)
    && (t > 0 ==> vm.inodesFree + u == t && IsShare(vm.inodesPercent, u, t))
    && (t <= 0 ==> vm.inodesFree == 0 && vm.inodesPercent == 0.0)
  }
}
