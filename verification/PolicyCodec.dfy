/** Printing a policy Spec to the wire and reading it back. */
module PolicyCodec {
  import opened Pointers
  import opened PolicyApi
  import opened Wire
  import Deltas

  // ----- What the wire form of a Spec is -----

  ghost predicate AdjustmentMeans(w: SdkStepAdjustment, v: StepAdjustmentValue) {
    w.lower == v.lower && w.upper == v.upper && IntMeans(w.adjustment, v.adjustment)
  }

  ghost predicate AdjustmentsMean(w: Option<seq<SdkStepAdjustment>>, v: Option<seq<Option<StepAdjustmentValue>>>) {
    && w.Some? == v.Some?
    && (w.Some? ==>
          && |w.value| == |v.value|
          && forall i :: 0 <= i < |w.value| ==> v.value[i].Some? && AdjustmentMeans(w.value[i], v.value[i].value))
  }

  ghost predicate StepMeans(w: SdkStep, v: StepValue) {
    && EnumMeans(w.adjustmentType, v.adjustmentType)
    && IntMeans(w.cooldown, v.cooldown)
    && EnumMeans(w.metricAggregationType, v.metricAggregationType)
    && IntMeans(w.minAdjustmentMagnitude, v.minAdjustmentMagnitude)
    && AdjustmentsMean(w.stepAdjustments, v.stepAdjustments)
  }

  ghost predicate DimensionsMean(w: Option<seq<SdkDimension>>, v: Option<seq<Option<DimensionValue>>>) {
    && w.Some? == v.Some?
    && (w.Some? ==>
          && |w.value| == |v.value|
          && forall i :: 0 <= i < |w.value| ==>
               v.value[i] == Some(DimensionValue(w.value[i].name, w.value[i].value)))
  }

  ghost predicate CustomizedMeans(w: SdkCustomized, v: CustomizedValue) {
    && DimensionsMean(w.dimensions, v.dimensions)
    && w.metricName == v.metricName
    && w.namespace == v.namespace
    && EnumMeans(w.statistic, v.statistic)
    && w.unit == v.unit
  }

  ghost predicate PredefinedMeans(w: SdkPredefined, v: PredefinedValue) {
    EnumMeans(w.metricType, v.metricType) && w.resourceLabel == v.resourceLabel
  }

  ghost predicate MaybeCustomizedMeans(w: Option<SdkCustomized>, v: Option<CustomizedValue>) {
    w.Some? == v.Some? && (w.Some? ==> CustomizedMeans(w.value, v.value))
  }

  ghost predicate MaybePredefinedMeans(w: Option<SdkPredefined>, v: Option<PredefinedValue>) {
    w.Some? == v.Some? && (w.Some? ==> PredefinedMeans(w.value, v.value))
  }

  ghost predicate TrackingMeans(w: SdkTracking, v: TrackingValue) {
    && MaybeCustomizedMeans(w.customized, v.customized)
    && w.disableScaleIn == v.disableScaleIn
    && MaybePredefinedMeans(w.predefined, v.predefined)
    && IntMeans(w.scaleInCooldown, v.scaleInCooldown)
    && IntMeans(w.scaleOutCooldown, v.scaleOutCooldown)
    && w.targetValue == v.targetValue
  }

  ghost predicate NamesMean(w: SdkPolicySettings, v: PolicyValue) {
    && w.policyName == v.policyName
    && EnumMeans(w.policyType, v.policyType)
    && w.resourceId == v.resourceID
    && EnumMeans(w.scalableDimension, v.scalableDimension)
    && EnumMeans(w.serviceNamespace, v.serviceNamespace)
  }

  ghost predicate MaybeStepMeans(w: Option<SdkStep>, v: Option<StepValue>) {
    w.Some? == v.Some? && (w.Some? ==> StepMeans(w.value, v.value))
  }

  ghost predicate MaybeTrackingMeans(w: Option<SdkTracking>, v: Option<TrackingValue>) {
    w.Some? == v.Some? && (w.Some? ==> TrackingMeans(w.value, v.value))
  }

  /** Field by field, the request says what the Spec says. */
  ghost predicate PolicyMeans(w: SdkPolicySettings, v: PolicyValue) {
    NamesMean(w, v) && MaybeStepMeans(w.step, v.step) && MaybeTrackingMeans(w.tracking, v.tracking)
  }

  // ----- Which Specs can be printed -----

  ghost predicate NoNil<T(!new)>(s: seq<Option<T>>) {
    forall i :: 0 <= i < |s| ==> s[i].Some?
  }

  ghost predicate NoNilStep(v: StepValue) {
    v.stepAdjustments.Some? ==> NoNil(v.stepAdjustments.value)
  }

  ghost predicate NoNilCustomized(v: CustomizedValue) {
    v.dimensions.Some? ==> NoNil(v.dimensions.value)
  }

  ghost predicate NoNilTracking(v: TrackingValue) {
    v.customized.Some? ==> NoNilCustomized(v.customized.value)
  }

  /** The encoder dereferences every list element. */
  ghost predicate NoNilElements(v: PolicyValue) {
    (v.step.Some? ==> NoNilStep(v.step.value)) && (v.tracking.Some? ==> NoNilTracking(v.tracking.value))
  }

  ghost function AdjustmentInts(s: seq<Option<StepAdjustmentValue>>): IntFields {
    if s == [] then []
    else (if s[0].None? then [] else IntField(ScalingAdjustment, s[0].value.adjustment)) + AdjustmentInts(s[1..])
  }

  ghost function StepInts(v: StepValue): IntFields {
    IntField(Cooldown, v.cooldown) + IntField(MinAdjustmentMagnitude, v.minAdjustmentMagnitude)
    + (if v.stepAdjustments.None? then [] else AdjustmentInts(v.stepAdjustments.value))
  }

  ghost function TrackingInts(v: TrackingValue): IntFields {
    IntField(ScaleInCooldown, v.scaleInCooldown) + IntField(ScaleOutCooldown, v.scaleOutCooldown)
  }

  ghost function MaybeStepInts(v: Option<StepValue>): IntFields {
    if v.None? then [] else StepInts(v.value)
  }

  ghost function MaybeTrackingInts(v: Option<TrackingValue>): IntFields {
    if v.None? then [] else TrackingInts(v.value)
  }

  /** Every integer the Spec sends, in payload order. */
  ghost function PolicyInts(v: PolicyValue): IntFields {
    MaybeStepInts(v.step) + MaybeTrackingInts(v.tracking)
  }

  ghost predicate TooWide(x: Option<int64>) {
    x.Some? && !(-0x8000_0000 <= x.value as int < 0x8000_0000)
  }

  /** Some step adjusts by more than 32 bits hold. */
  ghost predicate WideAdjustment(s: seq<Option<StepAdjustmentValue>>) {
    exists i :: 0 <= i < |s| && s[i].Some? && TooWide(s[i].value.adjustment)
  }

  lemma {:induction false} AdjustmentsMisfit(s: seq<Option<StepAdjustmentValue>>)
    ensures FirstMisfit(AdjustmentInts(s)) == if WideAdjustment(s) then Some(ScalingAdjustment) else None
  {
    if s != [] {
      var head := if s[0].None? then [] else IntField(ScalingAdjustment, s[0].value.adjustment);
      FirstMisfitAppend(head, AdjustmentInts(s[1..]));
      AdjustmentsMisfit(s[1..]);
      assert forall i :: 0 <= i < |s[1..]| ==> s[1..][i] == s[i + 1];
      if i :| 0 <= i < |s| && s[i].Some? && TooWide(s[i].value.adjustment) {
        assert i > 0 ==> s[1..][i - 1] == s[i];
      }
    }
  }

  lemma StepMisfit(v: StepValue)
    ensures FirstMisfit(StepInts(v))
            == if TooWide(v.cooldown) then Some(Cooldown)
               else if TooWide(v.minAdjustmentMagnitude) then Some(MinAdjustmentMagnitude)
               else if v.stepAdjustments.Some? && WideAdjustment(v.stepAdjustments.value) then Some(ScalingAdjustment)
               else None
  {
    var first, second := IntField(Cooldown, v.cooldown), IntField(MinAdjustmentMagnitude, v.minAdjustmentMagnitude);
    var rest := if v.stepAdjustments.None? then [] else AdjustmentInts(v.stepAdjustments.value);
    FirstMisfitAppend(first, second);
    FirstMisfitAppend(first + second, rest);
    if v.stepAdjustments.Some? {
      AdjustmentsMisfit(v.stepAdjustments.value);
    }
  }

  /** Which integer a payload names: the first in code order that 32 bits do not hold; none iff all fit. */
  lemma PolicyMisfit(v: PolicyValue)
    ensures FirstMisfit(PolicyInts(v))
            == if v.step.Some? && TooWide(v.step.value.cooldown) then Some(Cooldown)
               else if v.step.Some? && TooWide(v.step.value.minAdjustmentMagnitude) then Some(MinAdjustmentMagnitude)
               else if v.step.Some? && v.step.value.stepAdjustments.Some?
                       && WideAdjustment(v.step.value.stepAdjustments.value) then Some(ScalingAdjustment)
               else if v.tracking.Some? && TooWide(v.tracking.value.scaleInCooldown) then Some(ScaleInCooldown)
               else if v.tracking.Some? && TooWide(v.tracking.value.scaleOutCooldown) then Some(ScaleOutCooldown)
               else None
  {
    FirstMisfitAppend(MaybeStepInts(v.step), MaybeTrackingInts(v.tracking));
    if v.step.Some? {
      StepMisfit(v.step.value);
    }
    if v.tracking.Some? {
      var t := v.tracking.value;
      FirstMisfitAppend(IntField(ScaleInCooldown, t.scaleInCooldown), IntField(ScaleOutCooldown, t.scaleOutCooldown));
    }
  }

  // ----- What the relation says, field by field -----

  ghost predicate IntsEqual(w: Option<int32>, v: Option<int64>) {
    (w.None? && v.None?) || (w.Some? && v.Some? && w.value as int == v.value as int)
  }

  /** A nil enum is sent as "". */
  ghost predicate EnumsEqual(w: string, v: Option<string>) {
    w == if v.Some? then v.value else ""
  }

  lemma StepMeansSays(w: SdkStep, v: StepValue)
    ensures StepMeans(w, v) <==>
      && EnumsEqual(w.adjustmentType, v.adjustmentType)
      && EnumsEqual(w.metricAggregationType, v.metricAggregationType)
      && IntsEqual(w.cooldown, v.cooldown)
      && IntsEqual(w.minAdjustmentMagnitude, v.minAdjustmentMagnitude)
      && w.stepAdjustments.Some? == v.stepAdjustments.Some?
      && (w.stepAdjustments.Some? ==>
            && |w.stepAdjustments.value| == |v.stepAdjustments.value|
            && forall i :: 0 <= i < |w.stepAdjustments.value| ==>
                 var x, y := w.stepAdjustments.value[i], v.stepAdjustments.value[i];
                 && y.Some? && x.lower == y.value.lower && x.upper == y.value.upper
                 && IntsEqual(x.adjustment, y.value.adjustment))
  {
  }

  lemma TrackingMeansSays(w: SdkTracking, v: TrackingValue)
    ensures TrackingMeans(w, v) <==>
      && w.disableScaleIn == v.disableScaleIn && w.targetValue == v.targetValue
      && IntsEqual(w.scaleInCooldown, v.scaleInCooldown) && IntsEqual(w.scaleOutCooldown, v.scaleOutCooldown)
      && w.predefined.Some? == v.predefined.Some? && w.customized.Some? == v.customized.Some?
      && (w.predefined.Some? ==>
            && EnumsEqual(w.predefined.value.metricType, v.predefined.value.metricType)
            && w.predefined.value.resourceLabel == v.predefined.value.resourceLabel)
      && (w.customized.Some? ==>
            var x, y := w.customized.value, v.customized.value;
            && x.metricName == y.metricName && x.namespace == y.namespace && x.unit == y.unit
            && EnumsEqual(x.statistic, y.statistic)
            && x.dimensions.Some? == y.dimensions.Some?
            && (x.dimensions.Some? ==>
                  && |x.dimensions.value| == |y.dimensions.value|
                  && forall i :: 0 <= i < |x.dimensions.value| ==>
                       && y.dimensions.value[i].Some?
                       && x.dimensions.value[i].name == y.dimensions.value[i].value.name
                       && x.dimensions.value[i].value == y.dimensions.value[i].value.value))
  {
  }

  lemma PolicyMeansSays(w: SdkPolicySettings, v: PolicyValue)
    ensures PolicyMeans(w, v) <==>
      && w.policyName == v.policyName && w.resourceId == v.resourceID && EnumsEqual(w.policyType, v.policyType)
      && EnumsEqual(w.scalableDimension, v.scalableDimension) && EnumsEqual(w.serviceNamespace, v.serviceNamespace)
      && w.step.Some? == v.step.Some? && (w.step.Some? ==> StepMeans(w.step.value, v.step.value))
      && w.tracking.Some? == v.tracking.Some?
      && (w.tracking.Some? ==> TrackingMeans(w.tracking.value, v.tracking.value))
  {
  }

  lemma {:induction false} AdjustmentIntsSplit(s: seq<Option<StepAdjustmentValue>>, k: nat)
    requires k <= |s|
    ensures AdjustmentInts(s) == AdjustmentInts(s[..k]) + AdjustmentInts(s[k..])
  {
    if k == 0 {
      assert s[k..] == s;
    } else {
      assert s[..k][1..] == s[1..][..k - 1] && s[k..] == s[1..][k - 1..];
      AdjustmentIntsSplit(s[1..], k - 1);
    }
  }

  lemma AdjustmentIntsSnoc(s: seq<Option<StepAdjustmentValue>>, i: nat)
    requires i < |s| && s[i].Some?
    ensures AdjustmentInts(s[..i + 1]) == AdjustmentInts(s[..i]) + IntField(ScalingAdjustment, s[i].value.adjustment)
  {
    var fs := IntField(ScalingAdjustment, s[i].value.adjustment);
    AdjustmentIntsSplit(s[..i + 1], i);
    assert s[..i + 1][..i] == s[..i] && s[..i + 1][i..] == [s[i]];
    calc {
      AdjustmentInts([s[i]]);
      fs + AdjustmentInts([s[i]][1..]);
      { assert [s[i]][1..] == []; }
      fs + [];
      fs;
    }
  }

  /** One more element of the list has been checked. */
  lemma MisfitStep(s: seq<Option<StepAdjustmentValue>>, i: nat)
    requires i < |s| && s[i].Some?
    requires FirstMisfit(AdjustmentInts(s[..i])).None?
    ensures var here := FirstMisfit(IntField(ScalingAdjustment, s[i].value.adjustment));
            && FirstMisfit(AdjustmentInts(s[..i + 1])) == here
            && (here.Some? ==> FirstMisfit(AdjustmentInts(s)) == here)
  {
    AdjustmentIntsSnoc(s, i);
    FirstMisfitAppend(AdjustmentInts(s[..i]), IntField(ScalingAdjustment, s[i].value.adjustment));
    AdjustmentIntsSplit(s, i + 1);
    FirstMisfitAppend(AdjustmentInts(s[..i + 1]), AdjustmentInts(s[i + 1..]));
  }

  // ----- Encoding -----

  method EncodeAdjustments(a: Slice?<StepAdjustment?>)
    returns (r: Result<Option<seq<SdkStepAdjustment>>, Int32Field>)
    requires a != null ==> NoNil(AdjustmentViews(a.items))
    ensures a == null ==> r == Ok(None)
    ensures a != null ==>
      match FirstMisfit(AdjustmentInts(AdjustmentViews(a.items)))
      case Some(f) => r == Err(f)
      case None => r.Ok? && AdjustmentsMean(r.value, AdjustmentsView(a))
  {
    if a == null {
      return Ok(None);
    }
    ghost var views := AdjustmentViews(a.items);
    var list: seq<SdkStepAdjustment> := [];
    for i := 0 to |a.items|
      invariant |list| == i
      invariant forall j :: 0 <= j < i ==> views[j].Some? && AdjustmentMeans(list[j], views[j].value)
      invariant FirstMisfit(AdjustmentInts(views[..i])).None?
    {
      assert views[i] == AdjustmentView(a.items[i]);
      MisfitStep(views, i);
      var iter := a.items[i];
      var elem := SdkStepAdjustment(None, None, None);
      if iter.lower != null {
        elem := elem.(lower := Some(iter.lower.v));
      }
      if iter.upper != null {
        elem := elem.(upper := Some(iter.upper.v));
      }
      var adjustment := NarrowField(iter.adjustment, ScalingAdjustment);
      if adjustment.Err? {
        return Err(adjustment.error);
      }
      elem := elem.(adjustment := adjustment.value);
      list := list + [elem];
    }
    assert views[..|views|] == views;
    return Ok(Some(list));
  }

  method EncodeStep(c: StepScalingPolicyConfiguration) returns (r: Result<SdkStep, Int32Field>)
    requires NoNilStep(c.View())
    ensures match FirstMisfit(StepInts(old(c.View())))
            case Some(f) => r == Err(f)
            case None => r.Ok? && StepMeans(r.value, old(c.View()))
  {
    ghost var v := c.View();
    FirstMisfitAppend(IntField(Cooldown, v.cooldown), IntField(MinAdjustmentMagnitude, v.minAdjustmentMagnitude));
    FirstMisfitAppend(IntField(Cooldown, v.cooldown) + IntField(MinAdjustmentMagnitude, v.minAdjustmentMagnitude),
                      if v.stepAdjustments.None? then [] else AdjustmentInts(v.stepAdjustments.value));
    var step := SdkStep("", None, "", None, None);
    if c.adjustmentType != null {
      step := step.(adjustmentType := c.adjustmentType.v);
    }
    var cooldown := NarrowField(c.cooldown, Cooldown);
    if cooldown.Err? {
      return Err(cooldown.error);
    }
    step := step.(cooldown := cooldown.value);
    if c.metricAggregationType != null {
      step := step.(metricAggregationType := c.metricAggregationType.v);
    }
    var magnitude := NarrowField(c.minAdjustmentMagnitude, MinAdjustmentMagnitude);
    if magnitude.Err? {
      return Err(magnitude.error);
    }
    step := step.(minAdjustmentMagnitude := magnitude.value);
    var adjustments := EncodeAdjustments(c.stepAdjustments);
    if adjustments.Err? {
      return Err(adjustments.error);
    }
    step := step.(stepAdjustments := adjustments.value);
    return Ok(step);
  }

  method EncodeDimensions(a: Slice?<MetricDimension?>) returns (w: Option<seq<SdkDimension>>)
    requires a != null ==> NoNil(DimensionViews(a.items))
    ensures DimensionsMean(w, DimensionsView(a))
  {
    if a == null {
      return None;
    }
    ghost var views := DimensionViews(a.items);
    var list: seq<SdkDimension> := [];
    for i := 0 to |a.items|
      invariant |list| == i
      invariant forall j :: 0 <= j < i ==> views[j] == Some(DimensionValue(list[j].name, list[j].value))
    {
      assert views[i] == DimensionView(a.items[i]);
      var iter := a.items[i];
      var elem := SdkDimension(None, None);
      if iter.name != null {
        elem := elem.(name := Some(iter.name.v));
      }
      if iter.value != null {
        elem := elem.(value := Some(iter.value.v));
      }
      list := list + [elem];
    }
    return Some(list);
  }

  method EncodeCustomized(c: CustomizedMetricSpecification) returns (customized: SdkCustomized)
    requires NoNilCustomized(c.View())
    ensures CustomizedMeans(customized, c.View())
  {
    customized := SdkCustomized(None, None, None, "", None);
    var dimensions := EncodeDimensions(c.dimensions);
    customized := customized.(dimensions := dimensions);
    if c.metricName != null {
      customized := customized.(metricName := Some(c.metricName.v));
    }
    if c.namespace != null {
      customized := customized.(namespace := Some(c.namespace.v));
    }
    if c.statistic != null {
      customized := customized.(statistic := c.statistic.v);
    }
    if c.unit != null {
      customized := customized.(unit := Some(c.unit.v));
    }
  }

  method EncodePredefined(c: PredefinedMetricSpecification) returns (predefined: SdkPredefined)
    ensures PredefinedMeans(predefined, c.View())
  {
    predefined := SdkPredefined("", None);
    if c.metricType != null {
      predefined := predefined.(metricType := c.metricType.v);
    }
    if c.resourceLabel != null {
      predefined := predefined.(resourceLabel := Some(c.resourceLabel.v));
    }
  }

  method EncodeTracking(c: TargetTrackingScalingPolicyConfiguration) returns (r: Result<SdkTracking, Int32Field>)
    requires NoNilTracking(c.View())
    ensures match FirstMisfit(TrackingInts(old(c.View())))
            case Some(f) => r == Err(f)
            case None => r.Ok? && TrackingMeans(r.value, old(c.View()))
  {
    ghost var v := c.View();
    FirstMisfitAppend(IntField(ScaleInCooldown, v.scaleInCooldown), IntField(ScaleOutCooldown, v.scaleOutCooldown));
    var tracking := SdkTracking(None, None, None, None, None, None);
    if c.customized != null {
      var customized := EncodeCustomized(c.customized);
      tracking := tracking.(customized := Some(customized));
    }
    if c.disableScaleIn != null {
      tracking := tracking.(disableScaleIn := Some(c.disableScaleIn.v));
    }
    if c.predefined != null {
      var predefined := EncodePredefined(c.predefined);
      tracking := tracking.(predefined := Some(predefined));
    }
    var scaleIn := NarrowField(c.scaleInCooldown, ScaleInCooldown);
    if scaleIn.Err? {
      return Err(scaleIn.error);
    }
    tracking := tracking.(scaleInCooldown := scaleIn.value);
    var scaleOut := NarrowField(c.scaleOutCooldown, ScaleOutCooldown);
    if scaleOut.Err? {
      return Err(scaleOut.error);
    }
    tracking := tracking.(scaleOutCooldown := scaleOut.value);
    if c.targetValue != null {
      tracking := tracking.(targetValue := Some(c.targetValue.v));
    }
    return Ok(tracking);
  }

  method EncodeNames(spec: ScalingPolicySpec) returns (res: SdkPolicySettings)
    ensures spec.View() == old(spec.View())
    ensures NamesMean(res, old(spec.View())) && res.step.None? && res.tracking.None?
  {
    res := SdkPolicySettings(None, "", None, "", "", None, None);
    if spec.policyName != null {
      res := res.(policyName := Some(spec.policyName.v));
    }
    if spec.policyType != null {
      res := res.(policyType := spec.policyType.v);
    }
    if spec.resourceID != null {
      res := res.(resourceId := Some(spec.resourceID.v));
    }
    if spec.scalableDimension != null {
      res := res.(scalableDimension := spec.scalableDimension.v);
    }
    if spec.serviceNamespace != null {
      res := res.(serviceNamespace := spec.serviceNamespace.v);
    }
  }

  /** The step part of the payload, when there is one. */
  method EncodeStepOf(spec: ScalingPolicySpec, res: SdkPolicySettings)
    returns (r: Result<SdkPolicySettings, Int32Field>)
    requires NoNilElements(spec.View())
    ensures spec.View() == old(spec.View())
    ensures match FirstMisfit(MaybeStepInts(old(spec.View()).step))
            case Some(f) => r == Err(f)
            case None =>
              r.Ok? && r.value == res.(step := r.value.step) && MaybeStepMeans(r.value.step, old(spec.View()).step)
  {
    if spec.step == null {
      return Ok(res.(step := None));
    }
    var step := EncodeStep(spec.step);
    return if step.Err? then Err(step.error) else Ok(res.(step := Some(step.value)));
  }

  /** The tracking part of the payload, when there is one. */
  method EncodeTrackingOf(spec: ScalingPolicySpec, res: SdkPolicySettings)
    returns (r: Result<SdkPolicySettings, Int32Field>)
    requires NoNilElements(spec.View())
    ensures spec.View() == old(spec.View())
    ensures match FirstMisfit(MaybeTrackingInts(old(spec.View()).tracking))
            case Some(f) => r == Err(f)
            case None =>
              && r.Ok? && r.value == res.(tracking := r.value.tracking)
              && MaybeTrackingMeans(r.value.tracking, old(spec.View()).tracking)
  {
    if spec.tracking == null {
      return Ok(res.(tracking := None));
    }
    var tracking := EncodeTracking(spec.tracking);
    return if tracking.Err? then Err(tracking.error) else Ok(res.(tracking := Some(tracking.value)));
  }

  method NewCreateRequestPayload(spec: ScalingPolicySpec) returns (r: Result<SdkPolicySettings, Int32Field>)
    requires NoNilElements(spec.View())
    ensures spec.View() == old(spec.View())
    ensures match FirstMisfit(PolicyInts(old(spec.View())))
            case Some(f) => r == Err(f)
            case None => r.Ok? && PolicyMeans(r.value, old(spec.View()))
  {
    ghost var v := spec.View();
    FirstMisfitAppend(MaybeStepInts(v.step), MaybeTrackingInts(v.tracking));
    var res := EncodeNames(spec);
    r := EncodeStepOf(spec, res);
    if r.Err? {
      return;
    }
    r := EncodeTrackingOf(spec, r.value);
  }

  /** The second copy of the encoder; the delta is passed in and not used. */
  method NewUpdateRequestPayload(spec: ScalingPolicySpec, delta: Deltas.Delta)
    returns (r: Result<SdkPolicySettings, Int32Field>)
    requires NoNilElements(spec.View())
    ensures spec.View() == old(spec.View())
    ensures match FirstMisfit(PolicyInts(old(spec.View())))
            case Some(f) => r == Err(f)
            case None => r.Ok? && PolicyMeans(r.value, old(spec.View()))
  {
    ghost var v := spec.View();
    FirstMisfitAppend(MaybeStepInts(v.step), MaybeTrackingInts(v.tracking));
    var res := EncodeNames(spec);
    r := EncodeStepOf(spec, res);
    if r.Err? {
      return;
    }
    r := EncodeTrackingOf(spec, r.value);
  }

  // ----- Decoding -----

  ghost predicate StepCanonical(v: StepValue) {
    EnumCanonical(v.adjustmentType) && EnumCanonical(v.metricAggregationType)
  }

  ghost predicate TrackingCanonical(v: TrackingValue) {
    && (v.customized.Some? ==> EnumCanonical(v.customized.value.statistic))
    && (v.predefined.Some? ==> EnumCanonical(v.predefined.value.metricType))
  }

  ghost predicate NamesCanonical(v: PolicyValue) {
    EnumCanonical(v.policyType) && EnumCanonical(v.scalableDimension) && EnumCanonical(v.serviceNamespace)
  }

  ghost predicate MaybeStepCanonical(v: Option<StepValue>) {
    v.Some? ==> StepCanonical(v.value)
  }

  ghost predicate MaybeTrackingCanonical(v: Option<TrackingValue>) {
    v.Some? ==> TrackingCanonical(v.value)
  }

  /** No enum-typed field of the Spec points to "". */
  ghost predicate PolicyCanonical(v: PolicyValue) {
    NamesCanonical(v) && MaybeStepCanonical(v.step) && MaybeTrackingCanonical(v.tracking)
  }

  method DecodeAdjustment(w: SdkStepAdjustment) returns (elem: StepAdjustment)
    ensures AdjustmentMeans(w, elem.View())
    ensures fresh(elem) && fresh(elem.Cells())
  {
    elem := new StepAdjustment();
    elem.lower := NewRef(w.lower);
    elem.upper := NewRef(w.upper);
    elem.adjustment := Widen(w.adjustment);
  }

  method DecodeAdjustments(w: Option<seq<SdkStepAdjustment>>) returns (a: Slice?<StepAdjustment?>)
    ensures AdjustmentsMean(w, AdjustmentsView(a))
    ensures fresh(AdjustmentsOwned(a))
  {
    if w.None? {
      return null;
    }
    var list: seq<StepAdjustment?> := [];
    for i := 0 to |w.value|
      invariant |list| == i
      invariant forall j :: 0 <= j < i ==> list[j] != null && fresh(list[j]) && fresh(list[j].Cells())
      invariant forall j :: 0 <= j < i ==> AdjustmentMeans(w.value[j], list[j].View())
    {
      var elem := DecodeAdjustment(w.value[i]);
      list := list + [elem];
    }
    a := new Slice(list);
  }

  method DecodeStepScalars(step: StepScalingPolicyConfiguration, w: SdkStep)
    modifies step
    ensures step.stepAdjustments == old(step.stepAdjustments)
    ensures EnumMeans(w.adjustmentType, Deref(step.adjustmentType)) && EnumCanonical(Deref(step.adjustmentType))
    ensures EnumMeans(w.metricAggregationType, Deref(step.metricAggregationType))
    ensures EnumCanonical(Deref(step.metricAggregationType))
    ensures IntMeans(w.cooldown, Deref(step.cooldown))
    ensures IntMeans(w.minAdjustmentMagnitude, Deref(step.minAdjustmentMagnitude))
    ensures fresh(step.ScalarCells())
  {
    step.adjustmentType := EnumRef(w.adjustmentType);
    step.cooldown := Widen(w.cooldown);
    step.metricAggregationType := EnumRef(w.metricAggregationType);
    step.minAdjustmentMagnitude := Widen(w.minAdjustmentMagnitude);
  }

  method DecodeStep(w: SdkStep) returns (step: StepScalingPolicyConfiguration)
    ensures StepMeans(w, step.View()) && StepCanonical(step.View())
    ensures fresh(step.Owned())
  {
    step := new StepScalingPolicyConfiguration();
    DecodeStepScalars(step, w);
    step.stepAdjustments := DecodeAdjustments(w.stepAdjustments);
  }

  method DecodeDimension(w: SdkDimension) returns (elem: MetricDimension)
    ensures elem.View() == DimensionValue(w.name, w.value)
    ensures fresh(elem) && fresh(elem.Cells())
  {
    elem := new MetricDimension();
    elem.name := NewRef(w.name);
    elem.value := NewRef(w.value);
  }

  method DecodeDimensions(w: Option<seq<SdkDimension>>) returns (a: Slice?<MetricDimension?>)
    ensures DimensionsMean(w, DimensionsView(a))
    ensures fresh(DimensionsOwned(a))
  {
    if w.None? {
      return null;
    }
    var list: seq<MetricDimension?> := [];
    for i := 0 to |w.value|
      invariant |list| == i
      invariant forall j :: 0 <= j < i ==> list[j] != null && fresh(list[j]) && fresh(list[j].Cells())
      invariant forall j :: 0 <= j < i ==> list[j].View() == DimensionValue(w.value[j].name, w.value[j].value)
    {
      var elem := DecodeDimension(w.value[i]);
      list := list + [elem];
    }
    a := new Slice(list);
  }

  method DecodeCustomizedScalars(customized: CustomizedMetricSpecification, w: SdkCustomized)
    modifies customized
    ensures customized.dimensions == old(customized.dimensions)
    ensures Deref(customized.metricName) == w.metricName && Deref(customized.namespace) == w.namespace
    ensures EnumMeans(w.statistic, Deref(customized.statistic)) && EnumCanonical(Deref(customized.statistic))
    ensures Deref(customized.unit) == w.unit
    ensures fresh(customized.ScalarCells())
  {
    customized.metricName := NewRef(w.metricName);
    customized.namespace := NewRef(w.namespace);
    customized.statistic := EnumRef(w.statistic);
    customized.unit := NewRef(w.unit);
  }

  method DecodeCustomized(w: SdkCustomized) returns (customized: CustomizedMetricSpecification)
    ensures CustomizedMeans(w, customized.View()) && EnumCanonical(customized.View().statistic)
    ensures fresh(customized.Owned())
  {
    customized := new CustomizedMetricSpecification();
    DecodeCustomizedScalars(customized, w);
    customized.dimensions := DecodeDimensions(w.dimensions);
  }

  method DecodePredefined(w: SdkPredefined) returns (predefined: PredefinedMetricSpecification)
    ensures PredefinedMeans(w, predefined.View()) && EnumCanonical(predefined.View().metricType)
    ensures fresh(predefined.Owned())
  {
    predefined := new PredefinedMetricSpecification();
    predefined.metricType := EnumRef(w.metricType);
    predefined.resourceLabel := NewRef(w.resourceLabel);
  }

  method DecodeTrackingScalars(tracking: TargetTrackingScalingPolicyConfiguration, w: SdkTracking)
    modifies tracking
    ensures tracking.customized == old(tracking.customized) && tracking.predefined == old(tracking.predefined)
    ensures Deref(tracking.disableScaleIn) == w.disableScaleIn && Deref(tracking.targetValue) == w.targetValue
    ensures IntMeans(w.scaleInCooldown, Deref(tracking.scaleInCooldown))
    ensures IntMeans(w.scaleOutCooldown, Deref(tracking.scaleOutCooldown))
    ensures fresh(tracking.ScalarCells())
  {
    tracking.disableScaleIn := NewRef(w.disableScaleIn);
    tracking.scaleInCooldown := Widen(w.scaleInCooldown);
    tracking.scaleOutCooldown := Widen(w.scaleOutCooldown);
    tracking.targetValue := NewRef(w.targetValue);
  }

  method DecodeMaybeCustomized(w: Option<SdkCustomized>) returns (customized: CustomizedMetricSpecification?)
    ensures MaybeCustomizedMeans(w, CustomizedView(customized))
    ensures customized != null ==> EnumCanonical(CustomizedView(customized).value.statistic)
    ensures fresh(CustomizedOwned(customized))
  {
    customized := null;
    if w.Some? {
      customized := DecodeCustomized(w.value);
    }
  }

  method DecodeMaybePredefined(w: Option<SdkPredefined>) returns (predefined: PredefinedMetricSpecification?)
    ensures MaybePredefinedMeans(w, PredefinedView(predefined))
    ensures predefined != null ==> EnumCanonical(PredefinedView(predefined).value.metricType)
    ensures fresh(PredefinedOwned(predefined))
  {
    predefined := null;
    if w.Some? {
      predefined := DecodePredefined(w.value);
    }
  }

  method DecodeMetrics(tracking: TargetTrackingScalingPolicyConfiguration, w: SdkTracking)
    modifies tracking`customized, tracking`predefined
    ensures MaybeCustomizedMeans(w.customized, CustomizedView(tracking.customized))
    ensures MaybePredefinedMeans(w.predefined, PredefinedView(tracking.predefined))
    ensures TrackingCanonical(tracking.View())
    ensures fresh(CustomizedOwned(tracking.customized)) && fresh(PredefinedOwned(tracking.predefined))
  {
    tracking.predefined := DecodeMaybePredefined(w.predefined);
    tracking.customized := DecodeMaybeCustomized(w.customized);
  }

  method DecodeTracking(w: SdkTracking) returns (tracking: TargetTrackingScalingPolicyConfiguration)
    ensures TrackingMeans(w, tracking.View()) && TrackingCanonical(tracking.View())
    ensures fresh(tracking.Owned())
  {
    tracking := new TargetTrackingScalingPolicyConfiguration();
    DecodeTrackingScalars(tracking, w);
    DecodeMetrics(tracking, w);
    TrackingIsNew(tracking);
  }

  twostate lemma TrackingIsNew(new tracking: TargetTrackingScalingPolicyConfiguration)
    requires fresh(tracking) && fresh(tracking.ScalarCells())
    requires fresh(CustomizedOwned(tracking.customized)) && fresh(PredefinedOwned(tracking.predefined))
    ensures fresh(tracking.Owned())
  {
  }

  method DecodeNamesInto(spec: ScalingPolicySpec, w: SdkPolicySettings)
    modifies spec`policyName, spec`policyType, spec`resourceID, spec`scalableDimension, spec`serviceNamespace
    ensures Deref(spec.policyName) == w.policyName && Deref(spec.resourceID) == w.resourceId
    ensures EnumMeans(w.policyType, Deref(spec.policyType)) && EnumCanonical(Deref(spec.policyType))
    ensures EnumMeans(w.scalableDimension, Deref(spec.scalableDimension))
    ensures EnumCanonical(Deref(spec.scalableDimension))
    ensures EnumMeans(w.serviceNamespace, Deref(spec.serviceNamespace)) && EnumCanonical(Deref(spec.serviceNamespace))
    ensures fresh(spec.NameCells())
  {
    spec.policyName := NewRef(w.policyName);
    spec.policyType := EnumRef(w.policyType);
    spec.resourceID := NewRef(w.resourceId);
    spec.scalableDimension := EnumRef(w.scalableDimension);
    spec.serviceNamespace := EnumRef(w.serviceNamespace);
  }

  method DecodeMaybeStep(w: Option<SdkStep>) returns (step: StepScalingPolicyConfiguration?)
    ensures MaybeStepMeans(w, StepView(step)) && MaybeStepCanonical(StepView(step))
    ensures fresh(StepOwned(step))
  {
    step := null;
    if w.Some? {
      step := DecodeStep(w.value);
    }
  }

  method DecodeMaybeTracking(w: Option<SdkTracking>) returns (tracking: TargetTrackingScalingPolicyConfiguration?)
    ensures MaybeTrackingMeans(w, TrackingView(tracking)) && MaybeTrackingCanonical(TrackingView(tracking))
    ensures fresh(TrackingOwned(tracking))
  {
    tracking := null;
    if w.Some? {
      tracking := DecodeTracking(w.value);
    }
  }

  method DecodeStepInto(spec: ScalingPolicySpec, w: Option<SdkStep>)
    modifies spec`step
    ensures MaybeStepMeans(w, StepView(spec.step)) && MaybeStepCanonical(StepView(spec.step))
    ensures fresh(StepOwned(spec.step))
  {
    var step := DecodeMaybeStep(w);
    spec.SetStep(step);
  }

  method DecodeTrackingInto(spec: ScalingPolicySpec, w: Option<SdkTracking>)
    modifies spec`tracking
    ensures MaybeTrackingMeans(w, TrackingView(spec.tracking)) && MaybeTrackingCanonical(TrackingView(spec.tracking))
    ensures fresh(TrackingOwned(spec.tracking))
    ensures StepView(spec.step) == old(StepView(spec.step)) && StepOwned(spec.step) == old(StepOwned(spec.step))
  {
    var tracking := DecodeMaybeTracking(w);
    spec.SetTracking(tracking);
  }

  /** `sdkFind` overwrites every field of the Spec, clearing those the response leaves out. */
  method DecodeInto(spec: ScalingPolicySpec, w: SdkPolicySettings)
    modifies spec
    ensures PolicyMeans(w, spec.View()) && PolicyCanonical(spec.View())
    ensures fresh(spec.NameCells()) && fresh(StepOwned(spec.step)) && fresh(TrackingOwned(spec.tracking))
  {
    DecodeNamesInto(spec, w);
    DecodeStepInto(spec, w.step);
    DecodeTrackingInto(spec, w.tracking);
  }

  // ----- Round trip -----

  ghost function CanonStep(v: StepValue): StepValue {
    v.(adjustmentType := CanonEnum(v.adjustmentType), metricAggregationType := CanonEnum(v.metricAggregationType))
  }

  ghost function CanonCustomized(v: CustomizedValue): CustomizedValue {
    v.(statistic := CanonEnum(v.statistic))
  }

  ghost function CanonPredefined(v: PredefinedValue): PredefinedValue {
    v.(metricType := CanonEnum(v.metricType))
  }

  ghost function CanonTracking(v: TrackingValue): TrackingValue {
    v.(customized := if v.customized.None? then None else Some(CanonCustomized(v.customized.value)),
       predefined := if v.predefined.None? then None else Some(CanonPredefined(v.predefined.value)))
  }

  /** The Spec with every pointer to "" in an enum-typed field replaced by nil, and nothing else changed. */
  ghost function CanonPolicy(v: PolicyValue): PolicyValue {
    v.(policyType := CanonEnum(v.policyType),
       scalableDimension := CanonEnum(v.scalableDimension),
       serviceNamespace := CanonEnum(v.serviceNamespace),
       step := if v.step.None? then None else Some(CanonStep(v.step.value)),
       tracking := if v.tracking.None? then None else Some(CanonTracking(v.tracking.value)))
  }

  lemma StepReadBack(w: SdkStep, v: StepValue, u: StepValue)
    requires StepMeans(w, v) && StepMeans(w, u) && StepCanonical(u)
    ensures u == CanonStep(v)
  {
    if w.stepAdjustments.Some? {
      forall i | 0 <= i < |w.stepAdjustments.value|
        ensures u.stepAdjustments.value[i] == v.stepAdjustments.value[i]
      {
        var e := w.stepAdjustments.value[i];
        assert AdjustmentMeans(e, u.stepAdjustments.value[i].value);
        assert AdjustmentMeans(e, v.stepAdjustments.value[i].value);
      }
      assert u.stepAdjustments.value == v.stepAdjustments.value;
    }
  }

  lemma CustomizedReadBack(w: SdkCustomized, v: CustomizedValue, u: CustomizedValue)
    requires CustomizedMeans(w, v) && CustomizedMeans(w, u) && EnumCanonical(u.statistic)
    ensures u == CanonCustomized(v)
  {
    if w.dimensions.Some? {
      assert u.dimensions.value == v.dimensions.value;
    }
  }

  lemma TrackingReadBack(w: SdkTracking, v: TrackingValue, u: TrackingValue)
    requires TrackingMeans(w, v) && TrackingMeans(w, u) && TrackingCanonical(u)
    ensures u == CanonTracking(v)
  {
    if w.customized.Some? {
      CustomizedReadBack(w.customized.value, v.customized.value, u.customized.value);
    }
  }

  /** Reading back a printed Spec gives that Spec, up to pointers to "" in enum fields. */
  lemma PolicyReadBack(w: SdkPolicySettings, v: PolicyValue, u: PolicyValue)
    requires PolicyMeans(w, v) && PolicyMeans(w, u) && PolicyCanonical(u)
    ensures u == CanonPolicy(v)
  {
    if w.step.Some? {
      StepReadBack(w.step.value, v.step.value, u.step.value);
    }
    if w.tracking.Some? {
      TrackingReadBack(w.tracking.value, v.tracking.value, u.tracking.value);
    }
  }

  lemma AdjustmentsUnique(
      w: Option<seq<SdkStepAdjustment>>, x: Option<seq<SdkStepAdjustment>>, v: Option<seq<Option<StepAdjustmentValue>>>)
    requires AdjustmentsMean(w, v) && AdjustmentsMean(x, v)
    ensures w == x
  {
    if w.Some? {
      forall i | 0 <= i < |w.value|
        ensures w.value[i] == x.value[i]
      {
        assert AdjustmentMeans(w.value[i], v.value[i].value) && AdjustmentMeans(x.value[i], v.value[i].value);
      }
      assert w.value == x.value;
    }
  }

  lemma TrackingUnique(w: SdkTracking, x: SdkTracking, v: TrackingValue)
    requires TrackingMeans(w, v) && TrackingMeans(x, v)
    ensures w == x
  {
    if w.customized.Some? && w.customized.value.dimensions.Some? {
      var ds, es := w.customized.value.dimensions.value, x.customized.value.dimensions.value;
      forall i | 0 <= i < |ds|
        ensures ds[i] == es[i]
      {
        var d := v.customized.value.dimensions.value[i];
        assert d == Some(DimensionValue(ds[i].name, ds[i].value)) && d == Some(DimensionValue(es[i].name, es[i].value));
      }
      assert ds == es;
    }
  }

  /** A Spec has one printed form, so two encoders that both keep its meaning build the same request. */
  lemma PolicyEncodingUnique(w: SdkPolicySettings, x: SdkPolicySettings, v: PolicyValue)
    requires PolicyMeans(w, v) && PolicyMeans(x, v)
    ensures w == x
  {
    if w.step.Some? {
      AdjustmentsUnique(w.step.value.stepAdjustments, x.step.value.stepAdjustments, v.step.value.stepAdjustments);
    }
    if w.tracking.Some? {
      TrackingUnique(w.tracking.value, x.tracking.value, v.tracking.value);
    }
  }
}
