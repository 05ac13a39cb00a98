/** The admission webhook (internal/webhook/pvcgroup_webhook.go): a group template fills the
    annotations a PVC does not have, once as a JSON patch and once in place. */
module Webhook {
  import opened Kube
  import opened Annotations
  import opened JsonPointer

  type Notes = map<string, string>

  /** What a Get of a PVCGroup returns; `reachable` is false when the client fails. */
  datatype GroupClient = GroupClient(reachable: bool, templates: map<Key, Template>)

  datatype Patch = Add(path: string, value: string)

  datatype Response = Allowed | Errored | Patched(patches: seq<Patch>)

  // ---- What a template supplies ----

  function Entry(key: string, value: Option<string>): Notes {
    if value.Some? then map[key := value.value] else map[]
  }

  function Printed(write: int -> string, value: Option<int>): Option<string> {
    if value.Some? then Some(write(value.value)) else None
  }

  /** Every annotation a template has a value for. */
  function Rendered(codec: Codec, t: Template): Notes {
    Entry(THRESHOLD, t.threshold)
    + Entry(INCREASE, t.increase)
    + Entry(MAX_SIZE, Printed(codec.printQuantity, t.maxSize))
    + Entry(COOLDOWN, Printed(codec.printDuration, t.cooldown))
    + Entry(INODES_THRESHOLD, t.inodesThreshold)
    + Entry(MIN_SCALE_UP, Printed(codec.printQuantity, t.minScaleUp))
  }

  /** Existing annotations win over the template. */
  function Merge(existing: Notes, supplied: Notes): Notes {
    supplied + existing
  }

  function Missing(existing: Notes, supplied: Notes): Notes {
    supplied - existing.Keys
  }

  lemma EntryLookup(m: Notes, key: string, value: Option<string>, other: string)
    ensures Lookup(m + Entry(key, value), key) == OrElse(value, Lookup(m, key))
    ensures other != key ==> Lookup(m + Entry(key, value), other) == Lookup(m, other)
  {
  }

  /** `Lookup(m, key) == value` after each of six additions in turn. */
  lemma SixEntriesLookup(k1: string, v1: Option<string>, k2: string, v2: Option<string>, k3: string, v3: Option<string>,
                         k4: string, v4: Option<string>, k5: string, v5: Option<string>,
                         k6: string, v6: Option<string>, key: string)
    requires k1 !in {k2, k3, k4, k5, k6} && k2 !in {k3, k4, k5, k6} && k3 !in {k4, k5, k6} && k4 !in {k5, k6}
             && k5 != k6
    ensures Lookup(Entry(k1, v1) + Entry(k2, v2) + Entry(k3, v3) + Entry(k4, v4) + Entry(k5, v5) + Entry(k6, v6), key)
         == if key == k1 then v1 else if key == k2 then v2 else if key == k3 then v3
            else if key == k4 then v4 else if key == k5 then v5 else if key == k6 then v6 else None
  {
    var m1 := Entry(k1, v1);
    var m2 := m1 + Entry(k2, v2);
    var m3 := m2 + Entry(k3, v3);
    var m4 := m3 + Entry(k4, v4);
    var m5 := m4 + Entry(k5, v5);
    EntryLookup(m1, k2, v2, key);
    EntryLookup(m2, k3, v3, key);
    EntryLookup(m3, k4, v4, key);
    EntryLookup(m4, k5, v5, key);
    EntryLookup(m5, k6, v6, key);
  }

  lemma RenderedLookup(codec: Codec, t: Template, key: string)
    ensures Lookup(Rendered(codec, t), key)
         == if key == THRESHOLD then t.threshold else if key == INCREASE then t.increase
            else if key == MAX_SIZE then Printed(codec.printQuantity, t.maxSize)
            else if key == COOLDOWN then Printed(codec.printDuration, t.cooldown)
            else if key == INODES_THRESHOLD then t.inodesThreshold
            else if key == MIN_SCALE_UP then Printed(codec.printQuantity, t.minScaleUp)
            else None
  {
    KeysDistinct();
    SixEntriesLookup(THRESHOLD, t.threshold, INCREASE, t.increase, MAX_SIZE, Printed(codec.printQuantity, t.maxSize),
                     COOLDOWN, Printed(codec.printDuration, t.cooldown), INODES_THRESHOLD, t.inodesThreshold,
                     MIN_SCALE_UP, Printed(codec.printQuantity, t.minScaleUp), key);
  }

  lemma RenderedSettings(codec: Codec, t: Template)
    ensures Lookup(Rendered(codec, t), THRESHOLD) == t.threshold
    ensures Lookup(Rendered(codec, t), INODES_THRESHOLD) == t.inodesThreshold
    ensures Lookup(Rendered(codec, t), INCREASE) == t.increase
    ensures Lookup(Rendered(codec, t), MAX_SIZE) == Printed(codec.printQuantity, t.maxSize)
    ensures Lookup(Rendered(codec, t), COOLDOWN) == Printed(codec.printDuration, t.cooldown)
    ensures Lookup(Rendered(codec, t), MIN_SCALE_UP) == Printed(codec.printQuantity, t.minScaleUp)
    ensures ENABLED !in Rendered(codec, t) && GROUP !in Rendered(codec, t) && LAST_EXPANSION !in Rendered(codec, t)
  {
    KeysDistinct();
    RenderedLookup(codec, t, THRESHOLD);
    RenderedLookup(codec, t, INODES_THRESHOLD);
    RenderedLookup(codec, t, INCREASE);
    RenderedLookup(codec, t, MAX_SIZE);
    RenderedLookup(codec, t, COOLDOWN);
    RenderedLookup(codec, t, MIN_SCALE_UP);
    RenderedLookup(codec, t, ENABLED);
    RenderedLookup(codec, t, GROUP);
    RenderedLookup(codec, t, LAST_EXPANSION);
  }

  /** One `if` of getTemplateAnnotations. */
  function AddIfMissing(result: Notes, existing: Notes, key: string, value: Option<string>): Notes {
    if value.Some? && key !in existing then result[key := value.value] else result
  }

  lemma AddIfMissingStep(existing: Notes, supplied: Notes, key: string, value: Option<string>)
    ensures AddIfMissing(Missing(existing, supplied), existing, key, value)
            == Missing(existing, supplied + Entry(key, value))
  {
  }

  method AddMissing(result: Notes, existing: Notes, key: string, value: Option<string>, ghost supplied: Notes)
    returns (result': Notes)
    requires result == Missing(existing, supplied)
    ensures result' == Missing(existing, supplied + Entry(key, value))
  {
    AddIfMissingStep(existing, supplied, key, value);
    result' := result;
    if value.Some? && key !in existing {
      result' := result[key := value.value];
    }
  }

  /** getTemplateAnnotations: the template's settings the PVC lacks. */
  method GetTemplateAnnotations(codec: Codec, t: Template, existing: Notes) returns (result: Notes)
    ensures result == Missing(existing, Rendered(codec, t))
  {
    ghost var supplied: Notes := map[];
    result := map[];
    result := AddMissing(result, existing, THRESHOLD, t.threshold, supplied);
    supplied := Entry(THRESHOLD, t.threshold);
    assert map[] + supplied == supplied;
    result := AddMissing(result, existing, INCREASE, t.increase, supplied);
    supplied := supplied + Entry(INCREASE, t.increase);
    result := AddMissing(result, existing, MAX_SIZE, Printed(codec.printQuantity, t.maxSize), supplied);
    supplied := supplied + Entry(MAX_SIZE, Printed(codec.printQuantity, t.maxSize));
    result := AddMissing(result, existing, COOLDOWN, Printed(codec.printDuration, t.cooldown), supplied);
    supplied := supplied + Entry(COOLDOWN, Printed(codec.printDuration, t.cooldown));
    result := AddMissing(result, existing, INODES_THRESHOLD, t.inodesThreshold, supplied);
    supplied := supplied + Entry(INODES_THRESHOLD, t.inodesThreshold);
    result := AddMissing(result, existing, MIN_SCALE_UP, Printed(codec.printQuantity, t.minScaleUp), supplied);
  }

  // ---- Applying a patch (section 4.1 of RFC 6902, "add" to an object member) ----

  function ApplyPatch(notes: Notes, patch: Patch): Option<Notes> {
    match Tokens(patch.path)
    case None => None
    case Some(tokens) =>
      if |tokens| == 3 && tokens[0] == METADATA && tokens[1] == JsonPointer.ANNOTATIONS
      then Some(notes[tokens[2] := patch.value])
      else None
  }

  function ApplyPatches(notes: Notes, patches: seq<Patch>): Option<Notes>
    decreases |patches|
  {
    if patches == [] then Some(notes)
    else
      match ApplyPatch(notes, patches[0])
      case None => None
      case Some(next) => ApplyPatches(next, patches[1..])
  }

  /** The patches for `missing`, in the order in which a map iteration visits its keys. */
  function PatchesInOrder(order: seq<string>, missing: Notes): (patches: seq<Patch>)
    requires forall key :: key in order ==> key in missing
    ensures |patches| == |order|
  {
    if order == [] then []
    else [Add(AnnotationPath(order[0]), missing[order[0]])] + PatchesInOrder(order[1..], missing)
  }

  /** `order` visits each key of `keys` exactly once. */
  ghost predicate Enumerates(order: seq<string>, keys: set<string>) {
    && (forall key :: key in order <==> key in keys)
    && (forall i, j :: 0 <= i < j < |order| ==> order[i] != order[j])
  }

  function Restrict(notes: Notes, keys: seq<string>): Notes {
    map key | key in notes && key in keys :: notes[key]
  }

  lemma PatchAddsItsKey(notes: Notes, key: string, value: string)
    ensures ApplyPatch(notes, Add(AnnotationPath(key), value)) == Some(notes[key := value])
  {
    PathNamesItsKey(key);
  }

  lemma RestrictStep(notes: Notes, order: seq<string>, missing: Notes)
    requires order != [] && order[0] in missing
    ensures notes[order[0] := missing[order[0]]] + Restrict(missing, order[1..]) == notes + Restrict(missing, order)
  {
  }

  lemma {:induction false} PatchesAddTheirKeys(notes: Notes, order: seq<string>, missing: Notes)
    requires forall key :: key in order ==> key in missing
    ensures ApplyPatches(notes, PatchesInOrder(order, missing)) == Some(notes + Restrict(missing, order))
    decreases |order|
  {
    if order == [] {
      assert notes + Restrict(missing, []) == notes;
    } else {
      var key := order[0];
      var patches := PatchesInOrder(order, missing);
      PatchAddsItsKey(notes, key, missing[key]);
      assert patches[0] == Add(AnnotationPath(key), missing[key])
             && patches[1..] == PatchesInOrder(order[1..], missing);
      PatchesAddTheirKeys(notes[key := missing[key]], order[1..], missing);
      RestrictStep(notes, order, missing);
    }
  }

  lemma RestrictToAll(notes: Notes, order: seq<string>)
    requires Enumerates(order, notes.Keys)
    ensures Restrict(notes, order) == notes
  {
  }

  /** In whatever order the template map is visited, the patch performs the merge. */
  lemma PatchesPerformMerge(existing: Notes, supplied: Notes, order: seq<string>)
    requires Enumerates(order, Missing(existing, supplied).Keys)
    ensures ApplyPatches(existing, PatchesInOrder(order, Missing(existing, supplied)))
            == Some(Merge(existing, supplied))
  {
    var missing := Missing(existing, supplied);
    PatchesAddTheirKeys(existing, order, missing);
    RestrictToAll(missing, order);
    MissingCompletes(existing, supplied);
  }

  // ---- The two entry points ----

  predicate HasGroup(notes: Notes) {
    GROUP in notes && notes[GROUP] != ""
  }

  predicate OptedOut(notes: Notes) {
    ENABLED in notes && notes[ENABLED] == "false"
  }

  /** What the in-place path leaves on the PVC; None when the client fails. */
  function Defaulted(codec: Codec, groups: GroupClient, namespace: string, notes: Notes): Option<Notes> {
    if !HasGroup(notes) then Some(notes)
    else if !groups.reachable then None
    else
      match Lookup(groups.templates, Key(namespace, notes[GROUP]))
      case None => Some(notes)
      case Some(t) => Some(Merge(notes, Rendered(codec, t)))
  }

  /** What the API server stores after the patch path; None when the request is refused. */
  function AfterResponse(notes: Notes, response: Response): Option<Notes> {
    match response
    case Allowed => Some(notes)
    case Errored => None
    case Patched(patches) => ApplyPatches(notes, patches)
  }

  class PvcObject {
    const namespace: string
    var annotations: Notes

    constructor (namespace: string, annotations: Notes)
      ensures this.namespace == namespace && this.annotations == annotations
    {
      this.namespace := namespace;
      this.annotations := annotations;
    }
  }

  /** The in-place merge, one template annotation at a time. */
  method Default(codec: Codec, groups: GroupClient, pvc: PvcObject) returns (ok: bool)
    modifies pvc
    ensures ok == Defaulted(codec, groups, pvc.namespace, old(pvc.annotations)).Some?
    ensures ok ==> Some(pvc.annotations) == Defaulted(codec, groups, pvc.namespace, old(pvc.annotations))
    ensures !ok ==> pvc.annotations == old(pvc.annotations)
  {
    var existing := pvc.annotations;
    if !HasGroup(existing) {
      return true;
    }
    if !groups.reachable {
      return false;
    }
    var key := Key(pvc.namespace, existing[GROUP]);
    if key !in groups.templates {
      return true;
    }
    var supplied := GetTemplateAnnotations(codec, groups.templates[key], existing);
    MissingCompletes(existing, Rendered(codec, groups.templates[key]));
    SetAnnotations(pvc, supplied);
    return true;
  }

  lemma MissingCompletes(existing: Notes, supplied: Notes)
    ensures existing + Missing(existing, supplied) == Merge(existing, supplied)
  {
  }

  method SetAnnotations(pvc: PvcObject, supplied: Notes)
    modifies pvc
    ensures pvc.annotations == old(pvc.annotations) + supplied
  {
    var todo := supplied.Keys;
    while todo != {}
      invariant todo <= supplied.Keys
      invariant pvc.annotations == old(pvc.annotations) + (supplied - todo)
      decreases todo
    {
      var key :| key in todo;
      pvc.annotations := pvc.annotations[key := supplied[key]];
      todo := todo - {key};
    }
    assert supplied - {} == supplied;
  }

  /** The patch path: unless the PVC opted out with "false", the API server ends up with what the
      in-place path leaves, and a PVC that opted out is let through as it is. */
  method Handle(codec: Codec, groups: GroupClient, namespace: string, notes: Notes) returns (response: Response)
    ensures Lookup(notes, ENABLED) != Some("false") ==>
              AfterResponse(notes, response) == Defaulted(codec, groups, namespace, notes)
    ensures Lookup(notes, ENABLED) == Some("false") ==> response == Allowed
    ensures response == Errored <==>
            Lookup(notes, ENABLED) != Some("false") && Lookup(notes, GROUP) !in {None, Some("")} && !groups.reachable
    ensures response.Patched? ==> response.patches != []
  {
    ghost var order;
    response, order := Respond(codec, groups, namespace, notes);
    PathsAgreeIff(codec, groups, namespace, notes, order, response);
  }

  /** The in-place path merges the template of the group that the annotations name, leaves a PVC
      of no or of an unknown group alone, and fails when it cannot read the group. */
  lemma DefaultedMeans(codec: Codec, groups: GroupClient, namespace: string, notes: Notes)
    ensures Lookup(notes, GROUP) in {None, Some("")} ==> Defaulted(codec, groups, namespace, notes) == Some(notes)
    ensures Lookup(notes, GROUP) !in {None, Some("")} ==>
              var found := Lookup(groups.templates, Key(namespace, notes[GROUP]));
              Defaulted(codec, groups, namespace, notes)
              == if !groups.reachable then None
                 else if found.None? then Some(notes)
                 else Some(Rendered(codec, found.value) + notes)
  {
  }

  /** Any visiting order of the template map may be the one taken. */
  method Respond(codec: Codec, groups: GroupClient, namespace: string, notes: Notes)
    returns (response: Response, ghost order: seq<string>)
    ensures Handled(codec, groups, namespace, notes, order, response)
    ensures response.Patched? ==> response.patches != []
  {
    order := [];
    if OptedOut(notes) || !HasGroup(notes) {
      return Allowed, order;
    }
    if !groups.reachable {
      return Errored, order;
    }
    var key := Key(namespace, notes[GROUP]);
    if key !in groups.templates {
      return Allowed, order;
    }
    var missing := GetTemplateAnnotations(codec, groups.templates[key], notes);
    var patches;
    patches, order := BuildPatches(missing);
    if patches == [] {
      return Allowed, order;
    }
    return Patched(patches), order;
  }

  method BuildPatches(missing: Notes) returns (patches: seq<Patch>, ghost order: seq<string>)
    ensures Enumerates(order, missing.Keys)
    ensures patches == PatchesInOrder(order, missing)
  {
    patches, order := [], [];
    var todo := missing.Keys;
    while todo != {}
      invariant todo <= missing.Keys
      invariant Enumerates(order, missing.Keys - todo)
      invariant patches == PatchesInOrder(order, missing)
      decreases todo
    {
      var key :| key in todo;
      PatchesAppend(order, key, missing);
      patches := patches + [Add(AnnotationPath(key), missing[key])];
      order := order + [key];
      todo := todo - {key};
    }
  }

  lemma {:induction false} PatchesAppend(order: seq<string>, key: string, missing: Notes)
    requires key in missing && forall k :: k in order ==> k in missing
    ensures PatchesInOrder(order + [key], missing)
            == PatchesInOrder(order, missing) + [Add(AnnotationPath(key), missing[key])]
  {
    if order == [] {
      assert [key][1..] == [];
    } else {
      PatchesAppend(order[1..], key, missing);
      assert (order + [key])[1..] == order[1..] + [key];
    }
  }

  /** `response` is what the patch path answers when the template map is visited in `order`. */
  ghost predicate Handled(codec: Codec, groups: GroupClient, namespace: string, notes: Notes, order: seq<string>,
                          response: Response)
  {
    if OptedOut(notes) || !HasGroup(notes) then response == Allowed
    else if !groups.reachable then response == Errored
    else
      match Lookup(groups.templates, Key(namespace, notes[GROUP]))
      case None => response == Allowed
      case Some(t) =>
        var missing := Missing(notes, Rendered(codec, t));
        && Enumerates(order, missing.Keys)
        && response == if order == [] then Allowed else Patched(PatchesInOrder(order, missing))
  }

  /** The PVC names a group that cannot be read or whose template supplies something it lacks. */
  predicate GroupMatters(codec: Codec, groups: GroupClient, namespace: string, notes: Notes) {
    HasGroup(notes)
    && (!groups.reachable
        || var key := Key(namespace, notes[GROUP]);
           key in groups.templates && Missing(notes, Rendered(codec, groups.templates[key])) != map[])
  }

  /** The two paths leave the same annotations, in every visiting order, exactly unless the
      PVC opted out while its group matters: only the patch path honours the opt-out. */
  lemma PathsAgreeIff(codec: Codec, groups: GroupClient, namespace: string, notes: Notes, order: seq<string>,
                      response: Response)
    requires Handled(codec, groups, namespace, notes, order, response)
    ensures AfterResponse(notes, response) == Defaulted(codec, groups, namespace, notes)
       <==> !(OptedOut(notes) && GroupMatters(codec, groups, namespace, notes))
  {
    if HasGroup(notes) && groups.reachable {
      var found := Lookup(groups.templates, Key(namespace, notes[GROUP]));
      if found.Some? {
        MergeKeepsIff(notes, Rendered(codec, found.value));
        if !OptedOut(notes) {
          PatchesPerformMerge(notes, Rendered(codec, found.value), order);
        }
      }
    }
  }

  /** A claim annotated "false" in a group with a threshold of 75 %: the patch path lets it
      through as it is, the in-place path gives it the threshold. */
  lemma OptOutIsIgnoredInPlace(codec: Codec, namespace: string, t: Template)
    requires t.threshold == Some("75%")
    ensures var notes := map[ENABLED := "false", GROUP := "g"];
            var groups := GroupClient(true, map[Key(namespace, "g") := t]);
            && Handled(codec, groups, namespace, notes, [], Allowed)
            && AfterResponse(notes, Allowed) == Some(notes) && THRESHOLD !in notes
            && Defaulted(codec, groups, namespace, notes).Some?
            && Lookup(Defaulted(codec, groups, namespace, notes).value, THRESHOLD) == Some("75%")
  {
    var notes := map[ENABLED := "false", GROUP := "g"];
    KeysDistinct();
    assert notes[ENABLED] == "false" && notes[GROUP] == "g";
    RenderedSettings(codec, t);
    MergeLookup(notes, Rendered(codec, t), THRESHOLD);
  }

  lemma MergeKeepsIff(existing: Notes, supplied: Notes)
    ensures Merge(existing, supplied) == existing <==> Missing(existing, supplied) == map[]
  {
    if key :| key in supplied && key !in existing {
      assert key in Merge(existing, supplied) && key in Missing(existing, supplied);
    } else {
      assert forall key :: key in supplied ==> key in existing;
      assert Missing(existing, supplied) == map[];
      assert (supplied + existing).Keys == existing.Keys;
      assert Merge(existing, supplied) == existing;
    }
  }

  /** Admitting a PVC again under the same groups changes nothing. */
  lemma DefaultIsIdempotent(codec: Codec, groups: GroupClient, namespace: string, notes: Notes)
    requires Defaulted(codec, groups, namespace, notes).Some?
    ensures Defaulted(codec, groups, namespace, Defaulted(codec, groups, namespace, notes).value)
         == Defaulted(codec, groups, namespace, notes)
  {
    if HasGroup(notes) && Key(namespace, notes[GROUP]) in groups.templates {
      var supplied := Rendered(codec, groups.templates[Key(namespace, notes[GROUP])]);
      assert Merge(notes, supplied)[GROUP] == notes[GROUP];
      assert Merge(Merge(notes, supplied), supplied) == Merge(notes, supplied);
    }
  }

  // ---- A sequence of admissions under changing templates ----

  /** The annotations after one admission per template, in order. */
  function Admissions(codec: Codec, notes: Notes, templates: seq<Template>): Notes
    decreases |templates|
  {
    if templates == [] then notes
    else Admissions(codec, Merge(notes, Rendered(codec, templates[0])), templates[1..])
  }

  /** The value of the first template that has one for `key`. */
  function FirstSupplied(codec: Codec, templates: seq<Template>, key: string): Option<string> {
    if templates == [] then None
    else OrElse(Lookup(Rendered(codec, templates[0]), key), FirstSupplied(codec, templates[1..], key))
  }

  lemma MergeLookup(existing: Notes, supplied: Notes, key: string)
    ensures Lookup(Merge(existing, supplied), key) == OrElse(Lookup(existing, key), Lookup(supplied, key))
  {
  }

  /** Each annotation keeps the value of its first supplier, the PVC itself coming first. */
  lemma {:induction false} FirstSupplierWins(codec: Codec, notes: Notes, templates: seq<Template>, key: string)
    ensures Lookup(Admissions(codec, notes, templates), key)
         == OrElse(Lookup(notes, key), FirstSupplied(codec, templates, key))
    decreases |templates|
  {
    if templates != [] {
      MergeLookup(notes, Rendered(codec, templates[0]), key);
      FirstSupplierWins(codec, Merge(notes, Rendered(codec, templates[0])), templates[1..], key);
    }
  }
}
