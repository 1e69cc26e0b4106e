/**
 * The ScalingPolicy Spec as the controller keeps it in memory, and its generated deep copies.
 *
 * `View()` is what a struct means; its `reads` clause names the structs a later write could change that
 * meaning through. `Owned()` adds the scalar cells, list stores and list elements: everything a deep copy
 * has to replace. All of it but the cells can be written later.
 */
module PolicyApi {
  import opened Pointers

  // ----- What a Spec means: the same tree with every pointer read -----

  datatype StepAdjustmentValue = StepAdjustmentValue(
    lower: Option<real>, upper: Option<real>, adjustment: Option<int64>)

  datatype StepValue = StepValue(
    adjustmentType: Option<string>, cooldown: Option<int64>,
    metricAggregationType: Option<string>, minAdjustmentMagnitude: Option<int64>,
    stepAdjustments: Option<seq<Option<StepAdjustmentValue>>>)

  datatype DimensionValue = DimensionValue(name: Option<string>, value: Option<string>)

  datatype CustomizedValue = CustomizedValue(
    dimensions: Option<seq<Option<DimensionValue>>>, metricName: Option<string>,
    namespace: Option<string>, statistic: Option<string>, unit: Option<string>)

  datatype PredefinedValue = PredefinedValue(metricType: Option<string>, resourceLabel: Option<string>)

  datatype TrackingValue = TrackingValue(
    customized: Option<CustomizedValue>, disableScaleIn: Option<bool>,
    predefined: Option<PredefinedValue>, scaleInCooldown: Option<int64>,
    scaleOutCooldown: Option<int64>, targetValue: Option<real>)

  datatype PolicyValue = PolicyValue(
    policyName: Option<string>, policyType: Option<string>, resourceID: Option<string>,
    scalableDimension: Option<string>, serviceNamespace: Option<string>,
    step: Option<StepValue>, tracking: Option<TrackingValue>)

  // ----- Step adjustments and lists of them -----

  class StepAdjustment {
    var lower: Ref?<real>
    var upper: Ref?<real>
    var adjustment: Ref?<int64>

    constructor ()
      ensures View() == StepAdjustmentValue(None, None, None)
    {
      lower, upper, adjustment := null, null, null;
    }

    ghost function Cells(): set<object>
      reads this
    {
      Cell(lower) + Cell(upper) + Cell(adjustment)
    }

    function View(): StepAdjustmentValue
      reads this
    {
      StepAdjustmentValue(Deref(lower), Deref(upper), Deref(adjustment))
    }

    method DeepCopyInto(out: StepAdjustment)
      modifies out
      ensures out.View() == old(View())
      ensures fresh(out.Cells())
    {
      out.lower, out.upper, out.adjustment := lower, upper, adjustment;
      out.lower := CopyRef(out.lower);
      out.upper := CopyRef(out.upper);
      out.adjustment := CopyRef(out.adjustment);
    }
  }

  function AdjustmentView(e: StepAdjustment?): Option<StepAdjustmentValue>
    reads e
  {
    if e == null then None else Some(e.View())
  }

  function AdjustmentViews(s: seq<StepAdjustment?>): seq<Option<StepAdjustmentValue>>
    reads s
  {
    seq(|s|, i requires 0 <= i < |s| reads s => AdjustmentView(s[i]))
  }

  /** The structs of a list. */
  ghost function AdjustmentsIn(a: Slice?<StepAdjustment?>): set<StepAdjustment>
    reads a
  {
    if a == null then {} else set e: StepAdjustment | e in a.items
  }

  function AdjustmentsView(a: Slice?<StepAdjustment?>): Option<seq<Option<StepAdjustmentValue>>>
    reads a, AdjustmentsIn(a)
  {
    if a == null then None else Some(AdjustmentViews(a.items))
  }

  /** The list store, its structs and their cells. */
  ghost function AdjustmentsOwned(a: Slice?<StepAdjustment?>): set<object>
    reads a, AdjustmentsIn(a)
  {
    if a == null then {} else {a} + AdjustmentsIn(a) + set e, o | e in AdjustmentsIn(a) && o in e.Cells() :: o
  }

  method CopyAdjustments(a: Slice?<StepAdjustment?>) returns (b: Slice?<StepAdjustment?>)
    ensures AdjustmentsView(b) == old(AdjustmentsView(a))
    ensures fresh(AdjustmentsOwned(b))
  {
    if a == null {
      return null;
    }
    var copied: seq<StepAdjustment?> := seq(|a.items|, _ => null);
    for i := 0 to |a.items|
      invariant |copied| == |a.items|
      invariant forall j :: 0 <= j < i ==> AdjustmentView(copied[j]) == old(AdjustmentView(a.items[j]))
      invariant forall j :: 0 <= j < i && copied[j] != null ==> fresh(copied[j]) && fresh(copied[j].Cells())
      invariant forall j :: i <= j < |copied| ==> copied[j] == null
    {
      if a.items[i] != null {
        var e := new StepAdjustment();
        a.items[i].DeepCopyInto(e);
        copied := copied[i := e];
      }
    }
    b := new Slice(copied);
    assert AdjustmentViews(copied) == old(AdjustmentViews(a.items));
  }

  // ----- Step scaling configuration -----

  class StepScalingPolicyConfiguration {
    var adjustmentType: Ref?<string>
    var cooldown: Ref?<int64>
    var metricAggregationType: Ref?<string>
    var minAdjustmentMagnitude: Ref?<int64>
    var stepAdjustments: Slice?<StepAdjustment?>

    constructor ()
      ensures View() == StepValue(None, None, None, None, None)
      ensures stepAdjustments == null
    {
      adjustmentType, cooldown, metricAggregationType, minAdjustmentMagnitude := null, null, null, null;
      stepAdjustments := null;
    }

    ghost function Owned(): set<object>
      reads this, stepAdjustments, AdjustmentsIn(stepAdjustments)
    {
      {this} + ScalarCells() + AdjustmentsOwned(stepAdjustments)
    }

    function View(): StepValue
      reads this, stepAdjustments, AdjustmentsIn(stepAdjustments)
    {
      StepValue(Deref(adjustmentType), Deref(cooldown), Deref(metricAggregationType),
                Deref(minAdjustmentMagnitude), AdjustmentsView(stepAdjustments))
    }

    ghost function ScalarCells(): set<object>
      reads this
    {
      Cell(adjustmentType) + Cell(cooldown) + Cell(metricAggregationType) + Cell(minAdjustmentMagnitude)
    }

    method CopyScalarsInto(out: StepScalingPolicyConfiguration)
      modifies out
      ensures Deref(out.adjustmentType) == Deref(old(adjustmentType)) && Deref(out.cooldown) == Deref(old(cooldown))
      ensures Deref(out.metricAggregationType) == Deref(old(metricAggregationType))
      ensures Deref(out.minAdjustmentMagnitude) == Deref(old(minAdjustmentMagnitude))
      ensures out.stepAdjustments == old(stepAdjustments)
      ensures fresh(out.ScalarCells())
    {
      out.stepAdjustments := stepAdjustments;
      out.adjustmentType := CopyRef(adjustmentType);
      out.cooldown := CopyRef(cooldown);
      out.metricAggregationType := CopyRef(metricAggregationType);
      out.minAdjustmentMagnitude := CopyRef(minAdjustmentMagnitude);
    }

    /** Afterwards `out` means what the receiver meant and, `out` itself aside, owns only new memory. */
    method DeepCopyInto(out: StepScalingPolicyConfiguration)
      modifies out
      ensures out.View() == old(View())
      ensures fresh(out.ScalarCells()) && fresh(AdjustmentsOwned(out.stepAdjustments))
    {
      CopyScalarsInto(out);
      out.stepAdjustments := CopyAdjustments(out.stepAdjustments);
    }
  }

  // ----- Metric dimensions and lists of them -----

  class MetricDimension {
    var name: Ref?<string>
    var value: Ref?<string>

    constructor ()
      ensures View() == DimensionValue(None, None)
    {
      name, value := null, null;
    }

    ghost function Cells(): set<object>
      reads this
    {
      Cell(name) + Cell(value)
    }

    function View(): DimensionValue
      reads this
    {
      DimensionValue(Deref(name), Deref(value))
    }

    method DeepCopyInto(out: MetricDimension)
      modifies out
      ensures out.View() == old(View())
      ensures fresh(out.Cells())
    {
      out.name, out.value := name, value;
      out.name := CopyRef(out.name);
      out.value := CopyRef(out.value);
    }
  }

  function DimensionView(e: MetricDimension?): Option<DimensionValue>
    reads e
  {
    if e == null then None else Some(e.View())
  }

  function DimensionViews(s: seq<MetricDimension?>): seq<Option<DimensionValue>>
    reads s
  {
    seq(|s|, i requires 0 <= i < |s| reads s => DimensionView(s[i]))
  }

  /** The structs of a list. */
  ghost function DimensionsIn(a: Slice?<MetricDimension?>): set<MetricDimension>
    reads a
  {
    if a == null then {} else set e: MetricDimension | e in a.items
  }

  function DimensionsView(a: Slice?<MetricDimension?>): Option<seq<Option<DimensionValue>>>
    reads a, DimensionsIn(a)
  {
    if a == null then None else Some(DimensionViews(a.items))
  }

  /** The list store, its structs and their cells. */
  ghost function DimensionsOwned(a: Slice?<MetricDimension?>): set<object>
    reads a, DimensionsIn(a)
  {
    if a == null then {} else {a} + DimensionsIn(a) + set e, o | e in DimensionsIn(a) && o in e.Cells() :: o
  }

  method CopyDimensions(a: Slice?<MetricDimension?>) returns (b: Slice?<MetricDimension?>)
    ensures DimensionsView(b) == old(DimensionsView(a))
    ensures fresh(DimensionsOwned(b))
  {
    if a == null {
      return null;
    }
    var copied: seq<MetricDimension?> := seq(|a.items|, _ => null);
    for i := 0 to |a.items|
      invariant |copied| == |a.items|
      invariant forall j :: 0 <= j < i ==> DimensionView(copied[j]) == old(DimensionView(a.items[j]))
      invariant forall j :: 0 <= j < i && copied[j] != null ==> fresh(copied[j]) && fresh(copied[j].Cells())
      invariant forall j :: i <= j < |copied| ==> copied[j] == null
    {
      if a.items[i] != null {
        var e := new MetricDimension();
        a.items[i].DeepCopyInto(e);
        copied := copied[i := e];
      }
    }
    b := new Slice(copied);
    assert DimensionViews(copied) == old(DimensionViews(a.items));
  }

  // ----- Target tracking configuration -----

  class CustomizedMetricSpecification {
    var dimensions: Slice?<MetricDimension?>
    var metricName: Ref?<string>
    var namespace: Ref?<string>
    var statistic: Ref?<string>
    var unit: Ref?<string>

    constructor ()
      ensures View() == CustomizedValue(None, None, None, None, None)
      ensures dimensions == null
    {
      dimensions, metricName, namespace, statistic, unit := null, null, null, null, null;
    }

    ghost function ScalarCells(): set<object>
      reads this
    {
      Cell(metricName) + Cell(namespace) + Cell(statistic) + Cell(unit)
    }

    ghost function Owned(): set<object>
      reads this, dimensions, DimensionsIn(dimensions)
    {
      {this} + ScalarCells() + DimensionsOwned(dimensions)
    }

    function View(): CustomizedValue
      reads this, dimensions, DimensionsIn(dimensions)
    {
      CustomizedValue(DimensionsView(dimensions), Deref(metricName), Deref(namespace), Deref(statistic), Deref(unit))
    }

    method CopyScalarsInto(out: CustomizedMetricSpecification)
      modifies out
      ensures Deref(out.metricName) == Deref(old(metricName)) && Deref(out.namespace) == Deref(old(namespace))
      ensures Deref(out.statistic) == Deref(old(statistic)) && Deref(out.unit) == Deref(old(unit))
      ensures out.dimensions == old(dimensions)
      ensures fresh(out.ScalarCells())
    {
      out.dimensions := dimensions;
      out.metricName := CopyRef(metricName);
      out.namespace := CopyRef(namespace);
      out.statistic := CopyRef(statistic);
      out.unit := CopyRef(unit);
    }

    method DeepCopyInto(out: CustomizedMetricSpecification)
      modifies out
      ensures out.View() == old(View())
      ensures fresh(out.ScalarCells()) && fresh(DimensionsOwned(out.dimensions))
    {
      CopyScalarsInto(out);
      out.dimensions := CopyDimensions(out.dimensions);
    }
  }

  class PredefinedMetricSpecification {
    var metricType: Ref?<string>
    var resourceLabel: Ref?<string>

    constructor ()
      ensures View() == PredefinedValue(None, None)
    {
      metricType, resourceLabel := null, null;
    }

    ghost function Owned(): set<object>
      reads this
    {
      {this} + Cell(metricType) + Cell(resourceLabel)
    }

    function View(): PredefinedValue
      reads this
    {
      PredefinedValue(Deref(metricType), Deref(resourceLabel))
    }

    method DeepCopyInto(out: PredefinedMetricSpecification)
      modifies out
      ensures out.View() == old(View())
      ensures fresh(out.Owned() - {out})
    {
      out.metricType, out.resourceLabel := metricType, resourceLabel;
      out.metricType := CopyRef(out.metricType);
      out.resourceLabel := CopyRef(out.resourceLabel);
    }
  }

  ghost function SliceOf(c: CustomizedMetricSpecification?): Slice?<MetricDimension?>
    reads c
  {
    if c == null then null else c.dimensions
  }

  ghost function CustomizedOwned(c: CustomizedMetricSpecification?): set<object>
    reads c, SliceOf(c), DimensionsIn(SliceOf(c))
  {
    if c == null then {} else c.Owned()
  }

  function CustomizedView(c: CustomizedMetricSpecification?): Option<CustomizedValue>
    reads c, SliceOf(c), DimensionsIn(SliceOf(c))
  {
    if c == null then None else Some(c.View())
  }

  ghost function PredefinedOwned(p: PredefinedMetricSpecification?): set<object>
    reads p
  {
    if p == null then {} else p.Owned()
  }

  function PredefinedView(p: PredefinedMetricSpecification?): Option<PredefinedValue>
    reads p
  {
    if p == null then None else Some(p.View())
  }

  method CopyCustomized(c: CustomizedMetricSpecification?) returns (d: CustomizedMetricSpecification?)
    ensures CustomizedView(d) == old(CustomizedView(c))
    ensures fresh(CustomizedOwned(d))
  {
    d := null;
    if c != null {
      d := new CustomizedMetricSpecification();
      c.DeepCopyInto(d);
    }
  }

  method CopyPredefined(p: PredefinedMetricSpecification?) returns (q: PredefinedMetricSpecification?)
    ensures PredefinedView(q) == old(PredefinedView(p))
    ensures fresh(PredefinedOwned(q))
  {
    q := null;
    if p != null {
      q := new PredefinedMetricSpecification();
      p.DeepCopyInto(q);
    }
  }

  class TargetTrackingScalingPolicyConfiguration {
    var customized: CustomizedMetricSpecification?
    var disableScaleIn: Ref?<bool>
    var predefined: PredefinedMetricSpecification?
    var scaleInCooldown: Ref?<int64>
    var scaleOutCooldown: Ref?<int64>
    var targetValue: Ref?<real>

    constructor ()
      ensures View() == TrackingValue(None, None, None, None, None, None)
      ensures customized == null && predefined == null
    {
      customized, disableScaleIn, predefined := null, null, null;
      scaleInCooldown, scaleOutCooldown, targetValue := null, null, null;
    }

    ghost function ScalarCells(): set<object>
      reads this
    {
      Cell(disableScaleIn) + Cell(scaleInCooldown) + Cell(scaleOutCooldown) + Cell(targetValue)
    }

    ghost function Owned(): set<object>
      reads this, customized, SliceOf(customized), DimensionsIn(SliceOf(customized)), predefined
    {
      {this} + ScalarCells() + CustomizedOwned(customized) + PredefinedOwned(predefined)
    }

    function View(): TrackingValue
      reads this, customized, SliceOf(customized), DimensionsIn(SliceOf(customized)), predefined
    {
      TrackingValue(CustomizedView(customized), Deref(disableScaleIn), PredefinedView(predefined),
                    Deref(scaleInCooldown), Deref(scaleOutCooldown), Deref(targetValue))
    }

    method CopyScalarsInto(out: TargetTrackingScalingPolicyConfiguration)
      modifies out
      ensures Deref(out.disableScaleIn) == Deref(old(disableScaleIn))
      ensures Deref(out.scaleInCooldown) == Deref(old(scaleInCooldown))
      ensures Deref(out.scaleOutCooldown) == Deref(old(scaleOutCooldown))
      ensures Deref(out.targetValue) == Deref(old(targetValue))
      ensures out.customized == old(customized) && out.predefined == old(predefined)
      ensures fresh(out.ScalarCells())
    {
      out.customized, out.predefined := customized, predefined;
      out.disableScaleIn := CopyRef(disableScaleIn);
      out.scaleInCooldown := CopyRef(scaleInCooldown);
      out.scaleOutCooldown := CopyRef(scaleOutCooldown);
      out.targetValue := CopyRef(targetValue);
    }

    method UnsharePredefined()
      modifies `predefined
      ensures CustomizedView(customized) == old(CustomizedView(customized))
      ensures PredefinedView(predefined) == old(PredefinedView(predefined))
      ensures fresh(PredefinedOwned(predefined))
    {
      predefined := CopyPredefined(predefined);
    }

    method UnshareCustomized()
      modifies `customized
      ensures CustomizedView(customized) == old(CustomizedView(customized))
      ensures PredefinedView(predefined) == old(PredefinedView(predefined))
      ensures fresh(CustomizedOwned(customized))
    {
      customized := CopyCustomized(customized);
    }

    method ShallowCopyInto(out: TargetTrackingScalingPolicyConfiguration)
      modifies out
      ensures out.View() == old(View())
      ensures fresh(out.ScalarCells())
    {
      CopyScalarsInto(out);
    }

    /** Afterwards `out` means what the receiver meant and, `out` itself aside, owns only new memory. */
    method DeepCopyInto(out: TargetTrackingScalingPolicyConfiguration)
      modifies out
      ensures out.View() == old(View())
      ensures fresh(out.ScalarCells())
      ensures fresh(CustomizedOwned(out.customized)) && fresh(PredefinedOwned(out.predefined))
    {
      ShallowCopyInto(out);
      out.UnsharePredefined();
      out.UnshareCustomized();
    }
  }

  // ----- The whole Spec -----

  ghost function StepsOf(s: StepScalingPolicyConfiguration?): Slice?<StepAdjustment?>
    reads s
  {
    if s == null then null else s.stepAdjustments
  }

  ghost function StepOwned(s: StepScalingPolicyConfiguration?): set<object>
    reads s, StepsOf(s), AdjustmentsIn(StepsOf(s))
  {
    if s == null then {} else s.Owned()
  }

  function StepView(s: StepScalingPolicyConfiguration?): Option<StepValue>
    reads s, StepsOf(s), AdjustmentsIn(StepsOf(s))
  {
    if s == null then None else Some(s.View())
  }

  ghost function CustomizedOf(t: TargetTrackingScalingPolicyConfiguration?): CustomizedMetricSpecification?
    reads t
  {
    if t == null then null else t.customized
  }

  ghost function PredefinedOf(t: TargetTrackingScalingPolicyConfiguration?): PredefinedMetricSpecification?
    reads t
  {
    if t == null then null else t.predefined
  }

  ghost function TrackingOwned(t: TargetTrackingScalingPolicyConfiguration?): set<object>
    reads t, CustomizedOf(t), SliceOf(CustomizedOf(t)), DimensionsIn(SliceOf(CustomizedOf(t))), PredefinedOf(t)
  {
    if t == null then {} else t.Owned()
  }

  function TrackingView(t: TargetTrackingScalingPolicyConfiguration?): Option<TrackingValue>
    reads t, CustomizedOf(t), SliceOf(CustomizedOf(t)), DimensionsIn(SliceOf(CustomizedOf(t))), PredefinedOf(t)
  {
    if t == null then None else Some(t.View())
  }

  method CopyStep(s: StepScalingPolicyConfiguration?) returns (c: StepScalingPolicyConfiguration?)
    ensures StepView(c) == old(StepView(s))
    ensures fresh(StepOwned(c))
  {
    c := null;
    if s != null {
      c := new StepScalingPolicyConfiguration();
      s.DeepCopyInto(c);
    }
  }

  method CopyTracking(t: TargetTrackingScalingPolicyConfiguration?)
    returns (c: TargetTrackingScalingPolicyConfiguration?)
    ensures TrackingView(c) == old(TrackingView(t))
    ensures fresh(TrackingOwned(c))
  {
    c := null;
    if t != null {
      c := new TargetTrackingScalingPolicyConfiguration();
      t.DeepCopyInto(c);
    }
  }

  class ScalingPolicySpec {
    var policyName: Ref?<string>
    var policyType: Ref?<string>
    var resourceID: Ref?<string>
    var scalableDimension: Ref?<string>
    var serviceNamespace: Ref?<string>
    var step: StepScalingPolicyConfiguration?
    var tracking: TargetTrackingScalingPolicyConfiguration?

    constructor ()
      ensures View() == PolicyValue(None, None, None, None, None, None, None)
    {
      policyName, policyType, resourceID, scalableDimension, serviceNamespace := null, null, null, null, null;
      step, tracking := null, null;
    }

    ghost function NameCells(): set<object>
      reads this
    {
      Cell(policyName) + Cell(policyType) + Cell(resourceID) + Cell(scalableDimension) + Cell(serviceNamespace)
    }

    /** Everything below the Spec, and the Spec. */
    ghost function Owned(): set<object>
      reads this, step, StepsOf(step), AdjustmentsIn(StepsOf(step))
      reads tracking, CustomizedOf(tracking), SliceOf(CustomizedOf(tracking))
      reads DimensionsIn(SliceOf(CustomizedOf(tracking)))
      reads PredefinedOf(tracking)
    {
      {this} + NameCells() + StepOwned(step) + TrackingOwned(tracking)
    }

    function View(): PolicyValue
      reads this, step, StepsOf(step), AdjustmentsIn(StepsOf(step))
      reads tracking, CustomizedOf(tracking), SliceOf(CustomizedOf(tracking))
      reads DimensionsIn(SliceOf(CustomizedOf(tracking)))
      reads PredefinedOf(tracking)
    {
      PolicyValue(Deref(policyName), Deref(policyType), Deref(resourceID), Deref(scalableDimension),
                  Deref(serviceNamespace), StepView(step), TrackingView(tracking))
    }

    method CopyNamesInto(out: ScalingPolicySpec)
      modifies out
      ensures Deref(out.policyName) == Deref(old(policyName)) && Deref(out.policyType) == Deref(old(policyType))
      ensures Deref(out.resourceID) == Deref(old(resourceID))
      ensures Deref(out.scalableDimension) == Deref(old(scalableDimension))
      ensures Deref(out.serviceNamespace) == Deref(old(serviceNamespace))
      ensures fresh(out.NameCells())
      ensures out.step == old(step) && out.tracking == old(tracking)
    {
      out.step, out.tracking := step, tracking;
      out.policyName := CopyRef(policyName);
      out.policyType := CopyRef(policyType);
      out.resourceID := CopyRef(resourceID);
      out.scalableDimension := CopyRef(scalableDimension);
      out.serviceNamespace := CopyRef(serviceNamespace);
    }

    /** The first half: the names are new, the two configurations still shared. */
    method ShallowCopyInto(out: ScalingPolicySpec)
      modifies out
      ensures out.View() == old(View())
      ensures fresh(out.NameCells())
    {
      CopyNamesInto(out);
      assert StepView(out.step) == old(StepView(step));
      assert TrackingView(out.tracking) == old(TrackingView(tracking));
    }

    method SetStep(st: StepScalingPolicyConfiguration?)
      modifies `step
      ensures step == st && StepView(st) == old(StepView(st)) && StepOwned(st) == old(StepOwned(st))
      ensures TrackingView(tracking) == old(TrackingView(tracking))
    {
      step := st;
    }

    method SetTracking(tr: TargetTrackingScalingPolicyConfiguration?)
      modifies `tracking
      ensures tracking == tr && TrackingView(tr) == old(TrackingView(tr)) && TrackingOwned(tr) == old(TrackingOwned(tr))
      ensures StepView(step) == old(StepView(step)) && StepOwned(step) == old(StepOwned(step))
    {
      tracking := tr;
    }

    method UnshareStep()
      modifies `step
      ensures StepView(step) == old(StepView(step)) && TrackingView(tracking) == old(TrackingView(tracking))
      ensures fresh(StepOwned(step))
    {
      var st := StepCopied();
      SetStep(st);
    }

    method StepCopied() returns (st: StepScalingPolicyConfiguration?)
      ensures StepView(st) == old(StepView(step)) && TrackingView(tracking) == old(TrackingView(tracking))
      ensures fresh(StepOwned(st))
    {
      st := CopyStep(step);
    }

    method UnshareTracking()
      modifies `tracking
      ensures StepView(step) == old(StepView(step)) && TrackingView(tracking) == old(TrackingView(tracking))
      ensures StepOwned(step) == old(StepOwned(step))
      ensures fresh(TrackingOwned(tracking))
    {
      var tr := CopyTracking(tracking);
      SetTracking(tr);
    }

    /** Afterwards `out` means what the receiver meant and, `out` itself aside, owns only new memory. */
    method DeepCopyInto(out: ScalingPolicySpec)
      modifies out
      ensures out.View() == old(View())
      ensures fresh(out.NameCells()) && fresh(StepOwned(out.step)) && fresh(TrackingOwned(out.tracking))
    {
      ShallowCopyInto(out);
      out.UnshareStep();
      out.UnshareTracking();
    }

    method DeepCopy() returns (out: ScalingPolicySpec)
      ensures out.View() == old(View())
      ensures fresh(out)
      ensures fresh(out.NameCells()) && fresh(StepOwned(out.step)) && fresh(TrackingOwned(out.tracking))
    {
      out := new ScalingPolicySpec();
      assert View() == old(View());
      DeepCopyInto(out);
    }
  }

  // ----- Later writes -----

  /** Nothing in `mine` has changed since the earlier state. */
  twostate predicate Undisturbed(mine: set<object>)
    reads mine
  {
    forall o :: o in mine ==> unchanged(o)
  }

  /** Of all that is `mine`, only what is also `theirs` may have changed. */
  twostate predicate ConfinedTo(theirs: set<object>, mine: set<object>)
    reads mine
  {
    forall o :: o in mine && o !in theirs ==> unchanged(o)
  }

  twostate lemma StepStays(s: StepScalingPolicyConfiguration?)
    requires Undisturbed(old(StepOwned(s)))
    ensures StepView(s) == old(StepView(s))
  {
    if s != null {
      assert s in old(StepOwned(s));
      if s.stepAdjustments != null {
        assert s.stepAdjustments in old(StepOwned(s));
        assert forall e :: e in AdjustmentsIn(s.stepAdjustments) ==> e in old(StepOwned(s));
      }
    }
  }

  twostate lemma TrackingStays(t: TargetTrackingScalingPolicyConfiguration?)
    requires Undisturbed(old(TrackingOwned(t)))
    ensures TrackingView(t) == old(TrackingView(t))
  {
    if t != null {
      assert t in old(TrackingOwned(t));
      if t.customized != null {
        assert t.customized in old(TrackingOwned(t));
        if t.customized.dimensions != null {
          assert t.customized.dimensions in old(TrackingOwned(t));
          assert forall e :: e in DimensionsIn(t.customized.dimensions) ==> e in old(TrackingOwned(t));
        }
      }
    }
  }

  /** None of this memory is the Spec's. */
  ghost predicate OwnsNone(b: ScalingPolicySpec, theirs: set<object>)
    reads b, b.step, StepsOf(b.step), AdjustmentsIn(StepsOf(b.step))
    reads b.tracking, CustomizedOf(b.tracking), SliceOf(CustomizedOf(b.tracking))
    reads DimensionsIn(SliceOf(CustomizedOf(b.tracking))), PredefinedOf(b.tracking)
  {
    b !in theirs && StepOwned(b.step) !! theirs && TrackingOwned(b.tracking) !! theirs
  }

  /**
   * Whatever is written later inside memory the Spec does not own, such as that of a copy of it, be it to a
   * Spec, a struct, a list slot or a list element, the Spec means what it meant.
   */
  twostate lemma WritesStayApart(b: ScalingPolicySpec, theirs: set<object>)
    requires old(OwnsNone(b, theirs))
    requires ConfinedTo(theirs, {b})
    requires ConfinedTo(theirs, old(StepOwned(b.step))) && ConfinedTo(theirs, old(TrackingOwned(b.tracking)))
    ensures b.View() == old(b.View())
  {
    assert unchanged(b) by {
      assert b in {b};
    }
    StepStays(b.step);
    TrackingStays(b.tracking);
  }

  twostate lemma NewIsApart(theirs: set<object>, new mine: set<object>)
    requires fresh(mine)
    ensures theirs !! mine
  {
  }

  /** A copy and its source own nothing in common: neither owns any of the other's memory. */
  twostate lemma CopyApart(source: ScalingPolicySpec, new out: ScalingPolicySpec)
    requires fresh(out)
    requires fresh(out.NameCells()) && fresh(StepOwned(out.step)) && fresh(TrackingOwned(out.tracking))
    ensures old(source.Owned()) !! out.Owned()
    ensures OwnsNone(out, old(source.Owned()))
  {
    NewIsApart(old(source.Owned()), StepOwned(out.step));
    NewIsApart(old(source.Owned()), TrackingOwned(out.tracking));
    assert old(source.Owned()) !! out.Owned() by {
      NewIsApart(old(source.Owned()), {out} + out.NameCells());
    }
  }
}
