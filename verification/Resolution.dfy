/** Which source a PVC's configuration comes from: its annotations, its group's template, a
    policy, or the global defaults. */
module Resolution {
  import opened Kube
  import opened Annotations
  import opened Webhook
  import Text

  // ---- Policies against annotations ----

  /** The annotations settle the configuration on their own. */
  predicate AnnotationsDecide(codec: Codec, notes: Notes, global: GlobalConfig) {
    ExplicitlyDisabled(notes) || ParsePVCAnnotations(codec, notes, global).Ok?
  }

  /** No policy can influence the result exactly when the annotations decide. */
  lemma PoliciesIgnoredIff(codec: Codec, notes: Notes, labels: map<string, string>, global: GlobalConfig)
    ensures (forall ps: Option<seq<Policy>>, qs: Option<seq<Policy>> ::
               ResolvePVCConfig(codec, notes, labels, ps, global) == ResolvePVCConfig(codec, notes, labels, qs, global))
       <==> AnnotationsDecide(codec, notes, global)
  {
    if !AnnotationsDecide(codec, notes, global) {
      assert ResolvePVCConfig(codec, notes, labels, None, global) == Err(ListFailed);
      assert ResolvePVCConfig(codec, notes, labels, Some([]), global) == Err(NotManaged);
    }
  }

  /** When a policy is consulted, nothing of the annotations is mixed in. */
  lemma PolicyResultIgnoresAnnotations(codec: Codec, notes: Notes, notes': Notes, labels: map<string, string>,
                                       policies: Option<seq<Policy>>, global: GlobalConfig)
    requires !AnnotationsDecide(codec, notes, global) && !AnnotationsDecide(codec, notes', global)
    ensures ResolvePVCConfig(codec, notes, labels, policies, global)
            == ResolvePVCConfig(codec, notes', labels, policies, global)
  {
  }

  ghost predicate Skipped(policies: seq<Policy>, labels: map<string, string>, n: nat)
    requires n <= |policies|
  {
    forall j :: 0 <= j < n ==> policies[j].selector.valid && !policies[j].selector.matches(labels)
  }

  ghost predicate IsFirstMatch(policies: seq<Policy>, labels: map<string, string>, n: nat)
    requires n < |policies|
  {
    Skipped(policies, labels, n) && policies[n].selector.valid && policies[n].selector.matches(labels)
  }

  /** The policy consulted is the first one that matches; an invalid selector before it stops
      the search. */
  lemma {:induction false} FirstMatchIsFirst(policies: seq<Policy>, labels: map<string, string>) returns (n: nat)
    ensures n <= |policies| && Skipped(policies, labels, n)
    ensures n == |policies| <==> FirstMatchingPolicy(policies, labels) == Err(NotManaged)
    ensures n < |policies| && !policies[n].selector.valid ==>
              FirstMatchingPolicy(policies, labels) == Err(InvalidSelector)
    ensures n < |policies| && policies[n].selector.valid ==>
              policies[n].selector.matches(labels) && FirstMatchingPolicy(policies, labels) == Ok(policies[n])
  {
    if policies == [] || !policies[0].selector.valid || policies[0].selector.matches(labels) {
      n := 0;
    } else {
      var m := FirstMatchIsFirst(policies[1..], labels);
      n := m + 1;
    }
  }

  /** A resolved configuration knows its last expansion exactly when the annotations parse and
      carry one: a PVC managed by a policy, or one that is disabled, is never in cooldown. */
  lemma CooldownNeedsAnnotations(codec: Codec, notes: Notes, labels: map<string, string>,
                                 policies: Option<seq<Policy>>, global: GlobalConfig)
    requires ResolvePVCConfig(codec, notes, labels, policies, global).Ok?
    ensures ResolvePVCConfig(codec, notes, labels, policies, global).value.lastExpansion.Some?
       <==> !ExplicitlyDisabled(notes) && ParsePVCAnnotations(codec, notes, global).Ok? && LAST_EXPANSION in notes
  {
  }

  // ---- From the webhook to the configuration ----

  ghost predicate PrintingRoundTrips(codec: Codec) {
    && (forall q: int :: IsInt64(q) ==> codec.parseQuantity(codec.printQuantity(q)) == Some(q))
    && (forall d: int :: IsInt64(d) ==> codec.parseDuration(codec.printDuration(d)) == Some(d))
  }

  predicate SettingFits(setting: Option<int>) {
    setting.Some? ==> IsInt64(setting.value)
  }

  /** Sizes and durations of a template are int64 values. */
  predicate TemplateFits(t: Template) {
    SettingFits(t.maxSize) && SettingFits(t.minScaleUp) && SettingFits(t.cooldown)
  }

  /** The first of annotation, template and global, for a percentage. */
  function FirstPercent(codec: Codec, own: Option<string>, template: Option<string>,
                        global: real): Result<real, PercentError>
  {
    match OrElse(own, template)
    case None => Ok(global)
    case Some(text) => ParsePercentage(codec, text)
  }

  /** The first of annotation, template and global, for a quantity or a duration. */
  function FirstParsed(parse: string -> Option<int>, own: Option<string>, template: Option<int>,
                       global: int): Option<int>
  {
    if own.Some? then parse(own.value)
    else if template.Some? then template
    else Some(global)
  }

  lemma PercentOfMerge(codec: Codec, notes: Notes, supplied: Notes, key: string, global: real)
    ensures PercentSetting(codec, Merge(notes, supplied), key, global)
         == FirstPercent(codec, Lookup(notes, key), Lookup(supplied, key), global)
  {
    MergeLookup(notes, supplied, key);
  }

  lemma ParsedOfMerge(parse: string -> Option<int>, write: int -> string, notes: Notes, supplied: Notes, key: string,
                      template: Option<int>, global: int)
    requires Lookup(supplied, key) == Printed(write, template)
    requires template.Some? ==> parse(write(template.value)) == template
    ensures ParsedSetting(parse, Merge(notes, supplied), key, global)
            == FirstParsed(parse, Lookup(notes, key), template, global)
  {
    MergeLookup(notes, supplied, key);
  }

  lemma QuantityOfMerge(codec: Codec, notes: Notes, supplied: Notes, key: string, template: Option<int>, global: int)
    requires Lookup(supplied, key) == Printed(codec.printQuantity, template)
    requires PrintingRoundTrips(codec) && SettingFits(template)
    ensures ParsedSetting(codec.parseQuantity, Merge(notes, supplied), key, global)
         == FirstParsed(codec.parseQuantity, Lookup(notes, key), template, global)
  {
    if template.Some? {
      var q: int := template.value;
      assert codec.parseQuantity(codec.printQuantity(q)) == Some(q);
    }
    ParsedOfMerge(codec.parseQuantity, codec.printQuantity, notes, supplied, key, template, global);
  }

  lemma DurationOfMerge(codec: Codec, notes: Notes, supplied: Notes, key: string, template: Option<int>, global: int)
    requires Lookup(supplied, key) == Printed(codec.printDuration, template)
    requires PrintingRoundTrips(codec) && SettingFits(template)
    ensures ParsedSetting(codec.parseDuration, Merge(notes, supplied), key, global)
         == FirstParsed(codec.parseDuration, Lookup(notes, key), template, global)
  {
    if template.Some? {
      var d: int := template.value;
      assert codec.parseDuration(codec.printDuration(d)) == Some(d);
    }
    ParsedOfMerge(codec.parseDuration, codec.printDuration, notes, supplied, key, template, global);
  }

  /** The six settings of an enabled PVC, each from its first supplier; None when one of the
      values in effect does not parse. */
  function Precedence(codec: Codec, notes: Notes, t: Template, global: GlobalConfig): Option<PvcConfig> {
    var threshold := FirstPercent(codec, Lookup(notes, THRESHOLD), t.threshold, global.threshold);
    var inodes := FirstPercent(codec, Lookup(notes, INODES_THRESHOLD), t.inodesThreshold, global.inodesThreshold);
    var increase := GetOr(OrElse(Lookup(notes, INCREASE), t.increase), global.increase);
    var maxSize := FirstParsed(codec.parseQuantity, Lookup(notes, MAX_SIZE), t.maxSize, global.maxSize);
    var cooldown := FirstParsed(codec.parseDuration, Lookup(notes, COOLDOWN), t.cooldown, global.cooldown);
    var minScaleUp := FirstParsed(codec.parseQuantity, Lookup(notes, MIN_SCALE_UP), t.minScaleUp, global.minScaleUp);
    var stamp := Lookup(notes, LAST_EXPANSION);
    var last := if stamp.Some? then codec.parseTime(stamp.value) else None;
    if threshold.Err? || inodes.Err? || maxSize.None? || cooldown.None? || minScaleUp.None? then None
    else if stamp.Some? && last.None? then None
    else
      Some(PvcConfig(true, threshold.value, inodes.value, increase,
                     maxSize.value, cooldown.value, minScaleUp.value, last))
  }

  lemma ParseOfMerge(codec: Codec, notes: Notes, t: Template, supplied: Notes, global: GlobalConfig)
    requires ENABLED in notes && Text.ToLower(notes[ENABLED]) == "true"
    requires PrintingRoundTrips(codec) && TemplateFits(t)
    requires Lookup(supplied, THRESHOLD) == t.threshold && Lookup(supplied, INODES_THRESHOLD) == t.inodesThreshold
    requires Lookup(supplied, INCREASE) == t.increase && LAST_EXPANSION !in supplied
    requires Lookup(supplied, MAX_SIZE) == Printed(codec.printQuantity, t.maxSize)
    requires Lookup(supplied, COOLDOWN) == Printed(codec.printDuration, t.cooldown)
    requires Lookup(supplied, MIN_SCALE_UP) == Printed(codec.printQuantity, t.minScaleUp)
    ensures ParsePVCAnnotations(codec, Merge(notes, supplied), global).Ok? <==>
              Precedence(codec, notes, t, global).Some?
    ensures Precedence(codec, notes, t, global).Some? ==>
              ParsePVCAnnotations(codec, Merge(notes, supplied), global)
                == Ok(Precedence(codec, notes, t, global).value)
  {
    MergeLookup(notes, supplied, ENABLED);
    MergeLookup(notes, supplied, INCREASE);
    MergeLookup(notes, supplied, LAST_EXPANSION);
    PercentOfMerge(codec, notes, supplied, THRESHOLD, global.threshold);
    PercentOfMerge(codec, notes, supplied, INODES_THRESHOLD, global.inodesThreshold);
    QuantityOfMerge(codec, notes, supplied, MAX_SIZE, t.maxSize, global.maxSize);
    DurationOfMerge(codec, notes, supplied, COOLDOWN, t.cooldown, global.cooldown);
    QuantityOfMerge(codec, notes, supplied, MIN_SCALE_UP, t.minScaleUp, global.minScaleUp);
  }

  const NO_TEMPLATE := Template(None, None, None, None, None, None, None)

  /** The template of the claim's group; without a group, or when it does not exist, nothing. */
  function TemplateFor(groups: GroupClient, namespace: string, notes: Notes): Template {
    if HasGroup(notes) then GetOr(Lookup(groups.templates, Key(namespace, notes[GROUP])), NO_TEMPLATE) else NO_TEMPLATE
  }

  lemma DefaultedMerges(codec: Codec, groups: GroupClient, namespace: string, notes: Notes)
    ensures Defaulted(codec, groups, namespace, notes).None? <==> HasGroup(notes) && !groups.reachable
    ensures Defaulted(codec, groups, namespace, notes).Some? ==>
              Defaulted(codec, groups, namespace, notes)
              == Some(Merge(notes, Rendered(codec, TemplateFor(groups, namespace, notes))))
  {
    assert Rendered(codec, NO_TEMPLATE) == map[];
    assert Merge(notes, map[]) == notes;
  }

  /** Admission followed by resolution takes every setting from the first of annotation, group
      template (if there is one) and global default, and succeeds exactly when those values
      parse; no policy has a say. Only a group that cannot be read refuses the claim. */
  lemma EndToEndPrecedence(codec: Codec, notes: Notes, labels: map<string, string>, groups: GroupClient,
                           namespace: string, policies: Option<seq<Policy>>, global: GlobalConfig)
    requires ENABLED in notes && Text.ToLower(notes[ENABLED]) == "true"
    requires PrintingRoundTrips(codec) && TemplateFits(TemplateFor(groups, namespace, notes))
    ensures Defaulted(codec, groups, namespace, notes).None? <==> HasGroup(notes) && !groups.reachable
    ensures Defaulted(codec, groups, namespace, notes).Some? ==>
              var settings := Precedence(codec, notes, TemplateFor(groups, namespace, notes), global);
              var admitted := Defaulted(codec, groups, namespace, notes).value;
              && (settings.Some? ==> ResolvePVCConfig(codec, admitted, labels, policies, global) == Ok(settings.value))
              && (settings.None? ==> ParsePVCAnnotations(codec, admitted, global).Err?)
  {
    var t := TemplateFor(groups, namespace, notes);
    DefaultedMerges(codec, groups, namespace, notes);
    RenderedSettings(codec, t);
    MergeLookup(notes, Rendered(codec, t), ENABLED);
    ParseOfMerge(codec, notes, t, Rendered(codec, t), global);
    EnabledIsNotDisabled(notes[ENABLED]);
  }

  lemma EnabledIsNotDisabled(value: string)
    requires Text.ToLower(value) == "true"
    ensures Text.ToLower(value) != "false"
  {
    assert |"true"| == 4 && |"false"| == 5;
  }

  // ---- Policies against templates ----

  /** A percentage setting, if any, parses. */
  predicate PercentParses(codec: Codec, setting: Option<string>) {
    setting.Some? ==> ParsePercentage(codec, setting.value).Ok?
  }

  /** A policy means the same as annotating the PVC with its template's settings, exactly when
      both its thresholds parse: the policy then falls back to the global threshold, where the
      annotation would have been refused. */
  lemma PolicyMeansItsAnnotations(codec: Codec, t: Template, global: GlobalConfig)
    requires PrintingRoundTrips(codec) && TemplateFits(t) && GetOr(t.enabled, true)
    ensures ParsePVCAnnotations(codec, Merge(map[ENABLED := "true"], Rendered(codec, t)), global)
            == Ok(BuildConfigFromPolicy(codec, t, global))
       <==> PercentParses(codec, t.threshold) && PercentParses(codec, t.inodesThreshold)
  {
    var notes := OnlyEnabled();
    RenderedSettings(codec, t);
    ParseOfMerge(codec, notes, t, Rendered(codec, t), global);
    TemplatePrecedence(codec, notes, t, global);
  }

  /** The setting if it parses. */
  function IfReadable(codec: Codec, setting: Option<string>): Option<string> {
    if setting.Some? && ParsePercentage(codec, setting.value).Ok? then setting else None
  }

  /** The template without the thresholds that do not parse. */
  function Readable(codec: Codec, t: Template): Template {
    t.(threshold := IfReadable(codec, t.threshold), inodesThreshold := IfReadable(codec, t.inodesThreshold))
  }

  /** Every policy means what annotating the PVC with its readable settings would mean: a
      threshold that does not parse leaves the global one. Its own enabled flag is kept. */
  lemma PolicyMeansItsReadableSettings(codec: Codec, t: Template, global: GlobalConfig)
    requires PrintingRoundTrips(codec) && TemplateFits(t)
    ensures ParsePVCAnnotations(codec, Merge(map[ENABLED := "true"], Rendered(codec, Readable(codec, t))), global)
            == Ok(BuildConfigFromPolicy(codec, t, global).(enabled := true))
    ensures BuildConfigFromPolicy(codec, t, global).enabled <==> t.enabled != Some(false)
  {
    var readable := Readable(codec, t).(enabled := None);
    PolicyMeansItsAnnotations(codec, readable, global);
    assert Rendered(codec, readable) == Rendered(codec, Readable(codec, t));
    assert BuildConfigFromPolicy(codec, readable, global) == BuildConfigFromPolicy(codec, t, global).(enabled := true);
  }

  lemma OnlyEnabled() returns (notes: Notes)
    ensures notes == map[ENABLED := "true"]
    ensures ENABLED in notes && Text.ToLower(notes[ENABLED]) == "true"
    ensures notes.Keys !! {THRESHOLD, INODES_THRESHOLD, INCREASE, MAX_SIZE, COOLDOWN, MIN_SCALE_UP, LAST_EXPANSION}
  {
    notes := map[ENABLED := "true"];
    KeysDistinct();
    TrueIsLowerCase();
  }

  lemma TemplatePrecedence(codec: Codec, notes: Notes, t: Template, global: GlobalConfig)
    requires notes.Keys !! {THRESHOLD, INODES_THRESHOLD, INCREASE, MAX_SIZE, COOLDOWN, MIN_SCALE_UP, LAST_EXPANSION}
    requires GetOr(t.enabled, true)
    ensures Precedence(codec, notes, t, global) == Some(BuildConfigFromPolicy(codec, t, global))
       <==> PercentParses(codec, t.threshold) && PercentParses(codec, t.inodesThreshold)
    ensures Precedence(codec, notes, t, global).Some? ==>
              Precedence(codec, notes, t, global) == Some(BuildConfigFromPolicy(codec, t, global))
  {
  }

  lemma TrueIsLowerCase()
    ensures Text.ToLower("true") == "true"
  {
  }

  // ---- The stamp an expansion leaves ----

  /** The cooldown guard stops a stamped claim exactly while the cooldown lasts and the
      annotations configure it: never a claim that a policy manages or that is disabled. */
  lemma CooldownGuardsIff(codec: Codec, notes: Notes, labels: map<string, string>, policies: Option<seq<Policy>>,
                          global: GlobalConfig, t: int, now: int)
    requires TimesRoundTrip(codec) && IsTime(t)
    requires ResolvePVCConfig(codec, WithLastExpansion(codec, notes, t), labels, policies, global).Ok?
    ensures var stamped := WithLastExpansion(codec, notes, t);
            var config := ResolvePVCConfig(codec, stamped, labels, policies, global).value;
            IsInCooldown(config, now) <==>
            && !ExplicitlyDisabled(notes) && ParsePVCAnnotations(codec, stamped, global).Ok?
            && now < t - t % SECOND + config.cooldown
  {
    var stamped := WithLastExpansion(codec, notes, t);
    KeysDistinct();
    StampIsOutside(codec, notes, t, ENABLED);
    assert codec.parseTime(codec.formatTime(t)) == Some(t - t % SECOND);
    CooldownNeedsAnnotations(codec, stamped, labels, policies, global);
    if ParsePVCAnnotations(codec, stamped, global).Ok? {
      ParsedStamp(codec, stamped, global);
    }
  }

  lemma ParsedStamp(codec: Codec, notes: Notes, global: GlobalConfig)
    requires ParsePVCAnnotations(codec, notes, global).Ok? && LAST_EXPANSION in notes
    ensures ParsePVCAnnotations(codec, notes, global).value.lastExpansion == codec.parseTime(notes[LAST_EXPANSION])
  {
  }

  /** Stamping an expansion changes nothing else in the configuration, and keeps the PVC in
      cooldown until exactly one cooldown after the second it was stamped in. */
  lemma StampStartsCooldown(codec: Codec, notes: Notes, labels: map<string, string>, policies: Option<seq<Policy>>,
                            global: GlobalConfig, t: int, now: int)
    requires TimesRoundTrip(codec) && IsTime(t)
    requires !ExplicitlyDisabled(notes) && ParsePVCAnnotations(codec, notes, global).Ok?
    ensures var config := ParsePVCAnnotations(codec, notes, global).value;
            var stamped := ResolvePVCConfig(codec, WithLastExpansion(codec, notes, t), labels, policies, global);
            && stamped == Ok(config.(lastExpansion := Some(t - t % SECOND)))
            && (IsInCooldown(stamped.value, now) <==> now < t - t % SECOND + config.cooldown)
  {
    var notes' := WithLastExpansion(codec, notes, t);
    KeysDistinct();
    assert codec.parseTime(codec.formatTime(t)) == Some(t - t % SECOND);
    assert notes'[LAST_EXPANSION] == codec.formatTime(t);
    assert ENABLED in notes' && notes'[ENABLED] == notes[ENABLED];
    StampIsOutside(codec, notes, t, THRESHOLD);
    StampIsOutside(codec, notes, t, INODES_THRESHOLD);
    StampIsOutside(codec, notes, t, INCREASE);
    StampIsOutside(codec, notes, t, MAX_SIZE);
    StampIsOutside(codec, notes, t, COOLDOWN);
    StampIsOutside(codec, notes, t, MIN_SCALE_UP);
  }

  lemma StampIsOutside(codec: Codec, notes: Notes, t: int, key: string)
    requires key != LAST_EXPANSION
    ensures key in WithLastExpansion(codec, notes, t) <==> key in notes
    ensures key in notes ==> WithLastExpansion(codec, notes, t)[key] == notes[key]
  {
  }

  // ---- The documented precedence, policies included ----

  /** The six settings of a configuration. */
  function SettingsOf(c: PvcConfig): GlobalConfig {
    GlobalConfig(c.threshold, c.inodesThreshold, c.increase, c.cooldown, c.minScaleUp, c.maxSize)
  }

  /** The global settings as the first matching policy overrides them. */
  function PolicyOver(codec: Codec, policies: Option<seq<Policy>>, labels: map<string, string>,
                      global: GlobalConfig): GlobalConfig
  {
    if policies.None? then global
    else
      match FirstMatchingPolicy(policies.value, labels)
      case Err(_) => global
      case Ok(policy) =>
        SettingsOf(BuildConfigFromPolicy(codec, policy.template, global))
  }

  /** Each setting from the first of annotation, policy and global. */
  function Documented(codec: Codec, notes: Notes, policies: Option<seq<Policy>>, labels: map<string, string>,
                      global: GlobalConfig): Option<PvcConfig>
  {
    Precedence(codec, notes, NO_TEMPLATE, PolicyOver(codec, policies, labels, global))
  }

  lemma ParseIsPrecedence(codec: Codec, notes: Notes, global: GlobalConfig)
    requires ENABLED in notes && Text.ToLower(notes[ENABLED]) == "true"
    ensures ParsePVCAnnotations(codec, notes, global).Ok? <==> Precedence(codec, notes, NO_TEMPLATE, global).Some?
    ensures ParsePVCAnnotations(codec, notes, global).Ok? ==>
              Precedence(codec, notes, NO_TEMPLATE, global) == Some(ParsePVCAnnotations(codec, notes, global).value)
  {
  }

  /** A setting that is not annotated is the same from both. */
  predicate SameUnlessAnnotated<T(==)>(notes: Notes, key: string, a: T, b: T) {
    key in notes || a == b
  }

  /** Whether falling through to b instead of a shows in no setting. */
  predicate FallsThroughAlike(notes: Notes, a: GlobalConfig, b: GlobalConfig) {
    && SameUnlessAnnotated(notes, THRESHOLD, a.threshold, b.threshold)
    && SameUnlessAnnotated(notes, INODES_THRESHOLD, a.inodesThreshold, b.inodesThreshold)
    && SameUnlessAnnotated(notes, INCREASE, a.increase, b.increase)
    && SameUnlessAnnotated(notes, MAX_SIZE, a.maxSize, b.maxSize)
    && SameUnlessAnnotated(notes, COOLDOWN, a.cooldown, b.cooldown)
    && SameUnlessAnnotated(notes, MIN_SCALE_UP, a.minScaleUp, b.minScaleUp)
  }

  /** Annotations configure a PVC exactly when it is enabled and all values that are in effect
      parse. */
  lemma ParsesIff(codec: Codec, notes: Notes, global: GlobalConfig)
    ensures ParsePVCAnnotations(codec, notes, global).Ok? <==>
            && ENABLED in notes
            && |notes[ENABLED]| == 4
            && (forall i :: 0 <= i < 4 ==> Text.SameLetter(notes[ENABLED][i], "true"[i]))
            && Precedence(codec, notes, NO_TEMPLATE, global).Some?
  {
    if ENABLED in notes {
      Text.Spellings(notes[ENABLED], "true");
      if Text.ToLower(notes[ENABLED]) == "true" {
        ParseIsPrecedence(codec, notes, global);
      }
    }
  }

  /** "false", in capitals or not, is what disables a PVC. */
  lemma DisabledIff(notes: Notes)
    ensures ExplicitlyDisabled(notes) <==>
            && ENABLED in notes
            && |notes[ENABLED]| == 5
            && (forall i :: 0 <= i < 5 ==> Text.SameLetter(notes[ENABLED][i], "false"[i]))
  {
    if ENABLED in notes {
      Text.Spellings(notes[ENABLED], "false");
    }
  }

  /** A percentage reads as p exactly when, spaces around apart, it is text that parses to p and
      a percent sign, and p is in range. */
  lemma PercentageIs(codec: Codec, left: string, digits: string, right: string)
    requires Text.AllSpace(left) && Text.AllSpace(right) && (digits == "" || !Text.IsSpace(digits[0]))
    ensures var read := ParsePercentage(codec, left + (digits + "%") + right);
            forall p: real :: read == Ok(p) <==>
              digits != "" && codec.parseFloat(digits) == Some(p) && 0.0 <= p <= 100.0
  {
    Text.TrimmedStays(digits + "%");
    Text.TrimSpaceStrips(left, digits + "%", right);
    assert Text.TrimSuffix(digits + "%", '%') == digits;
  }

  lemma NoPercentSignNoPercentage(codec: Codec, left: string, text: string, right: string)
    requires Text.AllSpace(left) && Text.AllSpace(right) && Text.IsTrimmed(text) && (text == "" ==> right == "")
    requires text == "" || text[|text| - 1] != '%'
    ensures ParsePercentage(codec, left + text + right).Err?
  {
    Text.TrimSpaceStrips(left, text, right);
  }

  /** A claim is managed exactly when it is disabled, its annotations configure it, or the list
      of policies succeeds and has a match with no invalid selector before it. */
  lemma ResolvesIff(codec: Codec, notes: Notes, labels: map<string, string>, policies: Option<seq<Policy>>,
                    global: GlobalConfig)
    ensures ResolvePVCConfig(codec, notes, labels, policies, global).Ok? <==>
            || ExplicitlyDisabled(notes)
            || ParsePVCAnnotations(codec, notes, global).Ok?
            || (policies.Some? && exists n :: 0 <= n < |policies.value| && IsFirstMatch(policies.value, labels, n))
  {
    if policies.Some? {
      var n := FirstMatchIsFirst(policies.value, labels);
      if m: nat :| m < |policies.value| && IsFirstMatch(policies.value, labels, m) {
        assert n <= m;
      }
      assert n < |policies.value| && policies.value[n].selector.valid ==> IsFirstMatch(policies.value, labels, n);
    }
  }

  lemma PrecedenceAlikeIff(codec: Codec, notes: Notes, a: GlobalConfig, b: GlobalConfig)
    requires Precedence(codec, notes, NO_TEMPLATE, a).Some?
    ensures Precedence(codec, notes, NO_TEMPLATE, b).Some?
    ensures Precedence(codec, notes, NO_TEMPLATE, a) == Precedence(codec, notes, NO_TEMPLATE, b) <==>
            FallsThroughAlike(notes, a, b)
  {
  }

  /** A claim whose annotations parse resolves by the documented precedence exactly when every
      setting it does not annotate is the policy's and the global one alike: unspecified
      settings fall through to global, past the policy. */
  lemma AnnotatedFollowsPrecedenceIff(codec: Codec, notes: Notes, labels: map<string, string>,
                                      policies: Option<seq<Policy>>, global: GlobalConfig)
    requires !ExplicitlyDisabled(notes) && ParsePVCAnnotations(codec, notes, global).Ok?
    ensures Documented(codec, notes, policies, labels, global).Some?
    ensures ResolvePVCConfig(codec, notes, labels, policies, global)
            == Ok(Documented(codec, notes, policies, labels, global).value) <==>
            FallsThroughAlike(notes, global, PolicyOver(codec, policies, labels, global))
  {
    ParseIsPrecedence(codec, notes, global);
    PrecedenceAlikeIff(codec, notes, global, PolicyOver(codec, policies, labels, global));
  }

  predicate PercentReads(codec: Codec, notes: Notes, key: string, value: real) {
    key in notes ==> ParsePercentage(codec, notes[key]) == Ok(value)
  }

  predicate ValueReads(parse: string -> Option<int>, notes: Notes, key: string, value: int) {
    key in notes ==> parse(notes[key]) == Some(value)
  }

  /** Every setting that is annotated reads as the one given, and a stamp reads at all. */
  predicate AnnotationsRead(codec: Codec, notes: Notes, g: GlobalConfig) {
    && PercentReads(codec, notes, THRESHOLD, g.threshold)
    && PercentReads(codec, notes, INODES_THRESHOLD, g.inodesThreshold)
    && (INCREASE in notes ==> notes[INCREASE] == g.increase)
    && ValueReads(codec.parseQuantity, notes, MAX_SIZE, g.maxSize)
    && ValueReads(codec.parseDuration, notes, COOLDOWN, g.cooldown)
    && ValueReads(codec.parseQuantity, notes, MIN_SCALE_UP, g.minScaleUp)
    && (LAST_EXPANSION in notes ==> codec.parseTime(notes[LAST_EXPANSION]).Some?)
  }

  lemma PrecedenceReadsIff(codec: Codec, notes: Notes, g: GlobalConfig, config: PvcConfig)
    requires SettingsOf(config) == g
    ensures (Precedence(codec, notes, NO_TEMPLATE, g).Some?
             && SettingsOf(config) == SettingsOf(Precedence(codec, notes, NO_TEMPLATE, g).value)) <==>
            AnnotationsRead(codec, notes, g)
  {
  }

  /** A claim that a policy configures follows the documented precedence exactly when whatever
      it annotates says what the policy says anyway: its annotations are not read. */
  lemma PolicyFollowsPrecedenceIff(codec: Codec, notes: Notes, labels: map<string, string>,
                                   policies: Option<seq<Policy>>, global: GlobalConfig)
    requires !AnnotationsDecide(codec, notes, global)
    requires ResolvePVCConfig(codec, notes, labels, policies, global).Ok?
    ensures var resolved := ResolvePVCConfig(codec, notes, labels, policies, global).value;
            var documented := Documented(codec, notes, policies, labels, global);
            (documented.Some? && SettingsOf(resolved) == SettingsOf(documented.value)) <==>
            AnnotationsRead(codec, notes, PolicyOver(codec, policies, labels, global))
  {
    PrecedenceReadsIff(codec, notes, PolicyOver(codec, policies, labels, global),
                       ResolvePVCConfig(codec, notes, labels, policies, global).value);
  }

  /** "false" follows the documented precedence for its settings exactly when the annotations
      and the policy say nothing but what is global. */
  lemma DisabledFollowsPrecedenceIff(codec: Codec, notes: Notes, labels: map<string, string>,
                                     policies: Option<seq<Policy>>, global: GlobalConfig)
    requires ExplicitlyDisabled(notes)
    ensures ResolvePVCConfig(codec, notes, labels, policies, global).Ok?
    ensures var resolved := ResolvePVCConfig(codec, notes, labels, policies, global).value;
            var over := PolicyOver(codec, policies, labels, global);
            var documented := Documented(codec, notes, policies, labels, global);
            (documented.Some? && SettingsOf(resolved) == SettingsOf(documented.value)) <==>
            AnnotationsRead(codec, notes, global) && FallsThroughAlike(notes, global, over)
  {
    var over := PolicyOver(codec, policies, labels, global);
    var resolved := ResolvePVCConfig(codec, notes, labels, policies, global).value;
    PrecedenceReadsIff(codec, notes, global, resolved);
    if Precedence(codec, notes, NO_TEMPLATE, over).Some? {
      PrecedenceAlikeIff(codec, notes, over, global);
    } else if Precedence(codec, notes, NO_TEMPLATE, global).Some? {
      PrecedenceAlikeIff(codec, notes, global, over);
    }
  }

  // A policy that sets 75 % and nothing else.
  function SeventyFive(selector: Selector): Policy {
    Policy("p", selector, NO_TEMPLATE.(threshold := Some("75%")))
  }

  lemma SeventyFiveOver(codec: Codec, selector: Selector, labels: map<string, string>, global: GlobalConfig)
    requires selector.valid && selector.matches(labels) && codec.parseFloat("75") == Some(75.0)
    ensures FirstMatchingPolicy([SeventyFive(selector)], labels) == Ok(SeventyFive(selector))
    ensures PolicyOver(codec, Some([SeventyFive(selector)]), labels, global) == global.(threshold := 75.0)
  {
    assert Text.TrimSpace("75%") == "75%" && Text.TrimSuffix("75%", '%') == "75";
  }

  /** Enabled and nothing else: the policy's 75 % is passed over for the global 80 %. */
  lemma UnspecifiedSkipsPolicy(codec: Codec, selector: Selector, labels: map<string, string>, global: GlobalConfig)
    requires selector.valid && selector.matches(labels) && codec.parseFloat("75") == Some(75.0)
    requires global.threshold == 80.0
    ensures var notes := map[ENABLED := "true"];
            var policies := Some([SeventyFive(selector)]);
            && ResolvePVCConfig(codec, notes, labels, policies, global).Ok?
            && ResolvePVCConfig(codec, notes, labels, policies, global).value.threshold == 80.0
            && Documented(codec, notes, policies, labels, global).Some?
            && Documented(codec, notes, policies, labels, global).value.threshold == 75.0
  {
    var notes := OnlyEnabled();
    SeventyFiveOver(codec, selector, labels, global);
    EnabledIsNotDisabled(notes[ENABLED]);
  }

  /** The annotation "90%" alone does not take precedence: the policy's 75 % does. */
  lemma AnnotationLosesToPolicy(codec: Codec, selector: Selector, labels: map<string, string>, global: GlobalConfig)
    requires selector.valid && selector.matches(labels) && codec.parseFloat("75") == Some(75.0)
    requires codec.parseFloat("90") == Some(90.0)
    ensures var notes := map[THRESHOLD := "90%"];
            var policies := Some([SeventyFive(selector)]);
            && ResolvePVCConfig(codec, notes, labels, policies, global).Ok?
            && ResolvePVCConfig(codec, notes, labels, policies, global).value.threshold == 75.0
            && Documented(codec, notes, policies, labels, global).Some?
            && Documented(codec, notes, policies, labels, global).value.threshold == 90.0
  {
    KeysDistinct();
    SeventyFiveOver(codec, selector, labels, global);
    assert Text.TrimSpace("90%") == "90%" && Text.TrimSuffix("90%", '%') == "90";
  }
}
