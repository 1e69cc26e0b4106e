/** Comparing two ScalingPolicy resources. */
module PolicyDelta {
  import opened Pointers
  import opened PolicyApi
  import opened PolicyResource
  import opened Deltas

  datatype PolicyLeaf =
    | Str(s: string) | Int(i: int64) | Flag(b: bool) | Num(r: real)
    | Adjustments(steps: seq<Option<StepAdjustmentValue>>)
    | Dims(dims: seq<Option<DimensionValue>>)

  type PolicyNode = Node<PolicyLeaf>

  // ----- A Spec as a tree -----

  ghost function StrNode(reading: NilReading, s: Option<string>): PolicyNode {
    match ReadString(reading, s) case None => Absent case Some(x) => Leaf(Str(x))
  }

  ghost function IntNode(i: Option<int64>): PolicyNode {
    match i case None => Absent case Some(x) => Leaf(Int(x))
  }

  ghost function FlagNode(b: Option<bool>): PolicyNode {
    match b case None => Absent case Some(x) => Leaf(Flag(x))
  }

  ghost function NumNode(r: Option<real>): PolicyNode {
    match r case None => Absent case Some(x) => Leaf(Num(x))
  }

  ghost function GroupNode<T>(g: Option<T>): PolicyNode {
    if g.None? then Absent else Group
  }

  /** A nil list and an empty list are the same node. */
  ghost function ListOf<T>(l: Option<seq<T>>): seq<T> {
    if l.None? then [] else l.value
  }

  ghost function StepNode(reading: NilReading, v: StepValue, field: Field): PolicyNode {
    match field
    case AdjustmentType => StrNode(reading, v.adjustmentType)
    case Cooldown => IntNode(v.cooldown)
    case MetricAggregationType => StrNode(reading, v.metricAggregationType)
    case MinAdjustmentMagnitude => IntNode(v.minAdjustmentMagnitude)
    case StepAdjustments => Leaf(Adjustments(ListOf(v.stepAdjustments)))
    case _ => Absent
  }

  ghost function CustomizedNode(reading: NilReading, v: CustomizedValue, field: Field): PolicyNode {
    match field
    case Dimensions => Leaf(Dims(ListOf(v.dimensions)))
    case MetricName => StrNode(reading, v.metricName)
    case Namespace => StrNode(reading, v.namespace)
    case Statistic => StrNode(reading, v.statistic)
    case Unit => StrNode(reading, v.unit)
    case _ => Absent
  }

  ghost function PredefinedNode(reading: NilReading, v: PredefinedValue, field: Field): PolicyNode {
    match field
    case PredefinedMetricType => StrNode(reading, v.metricType)
    case ResourceLabel => StrNode(reading, v.resourceLabel)
    case _ => Absent
  }

  ghost function TrackingNode(reading: NilReading, v: TrackingValue, field: Field): PolicyNode {
    match field
    case CustomizedMetric => GroupNode(v.customized)
    case DisableScaleIn => FlagNode(v.disableScaleIn)
    case PredefinedMetric => GroupNode(v.predefined)
    case ScaleInCooldown => IntNode(v.scaleInCooldown)
    case ScaleOutCooldown => IntNode(v.scaleOutCooldown)
    case TargetValue => NumNode(v.targetValue)
    case _ => Absent
  }

  ghost function SpecNode(reading: NilReading, v: PolicyValue, field: Field): PolicyNode {
    match field
    case PolicyName => StrNode(reading, v.policyName)
    case PolicyType => StrNode(reading, v.policyType)
    case ResourceID => StrNode(reading, v.resourceID)
    case ScalableDimension => StrNode(reading, v.scalableDimension)
    case ServiceNamespace => StrNode(reading, v.serviceNamespace)
    case StepConfig => GroupNode(v.step)
    case TrackingConfig => GroupNode(v.tracking)
    case _ => Absent
  }

  ghost function NodeAt(reading: NilReading, v: PolicyValue, p: Path): PolicyNode {
    if |p| == 0 || p[0] != Spec then Absent
    else if |p| == 1 then Group
    else if |p| == 2 then SpecNode(reading, v, p[1])
    else if |p| == 3 && p[1] == StepConfig && v.step.Some? then StepNode(reading, v.step.value, p[2])
    else if |p| == 3 && p[1] == TrackingConfig && v.tracking.Some? then TrackingNode(reading, v.tracking.value, p[2])
    else if |p| == 4 && p[1] == TrackingConfig && v.tracking.Some? then
      if p[2] == CustomizedMetric && v.tracking.value.customized.Some?
      then CustomizedNode(reading, v.tracking.value.customized.value, p[3])
      else if p[2] == PredefinedMetric && v.tracking.value.predefined.Some?
      then PredefinedNode(reading, v.tracking.value.predefined.value, p[3])
      else Absent
    else Absent
  }

  ghost function PolicyTree(reading: NilReading, v: PolicyValue): Tree<PolicyLeaf> {
    p => NodeAt(reading, v, p)
  }

  // ----- The schema -----

  const SPEC: Path := [Spec]
  const STEP: Path := Under(SPEC, StepConfig)
  const TRACKING: Path := Under(SPEC, TrackingConfig)
  const CUSTOMIZED: Path := Under(TRACKING, CustomizedMetric)
  const PREDEFINED: Path := Under(TRACKING, PredefinedMetric)

  const NAME_FIELDS := [PolicyName, PolicyType, ResourceID, ScalableDimension, ServiceNamespace]
  const STEP_FIELDS := [AdjustmentType, Cooldown, MetricAggregationType, MinAdjustmentMagnitude, StepAdjustments]
  const CUSTOMIZED_FIELDS := [Dimensions, MetricName, Namespace, Statistic, Unit]
  const PREDEFINED_FIELDS := [PredefinedMetricType, ResourceLabel]

  // The order in which the comparison looks: a struct, then its members, then what follows it.
  const STEP_SECTION: seq<Path> := Members(SPEC, [StepConfig]) + Members(STEP, STEP_FIELDS)
  const CUSTOMIZED_SECTION: seq<Path> := Members(TRACKING, [CustomizedMetric]) + Members(CUSTOMIZED, CUSTOMIZED_FIELDS)
  const PREDEFINED_SECTION: seq<Path> := Members(TRACKING, [PredefinedMetric]) + Members(PREDEFINED, PREDEFINED_FIELDS)
  const TRACKING_MEMBERS: seq<Path> :=
    CUSTOMIZED_SECTION + Members(TRACKING, [DisableScaleIn])
    + PREDEFINED_SECTION + Members(TRACKING, [ScaleInCooldown, ScaleOutCooldown, TargetValue])
  const TRACKING_SECTION: seq<Path> := Members(SPEC, [TrackingConfig]) + TRACKING_MEMBERS

  /** Every path the comparison may record, in the order in which it looks. */
  const POLICY_SCHEMA: seq<Path> := Members(SPEC, NAME_FIELDS) + STEP_SECTION + TRACKING_SECTION

  // ----- The comparison -----

  // `f` and `g` are the trees under comparison; each step appends exactly what the trees say.

  method VisitString(delta: Delta, reading: NilReading, p: Path, a: Ref?<string>, b: Ref?<string>,
                     ghost f: Tree<PolicyLeaf>, ghost g: Tree<PolicyLeaf>)
    requires f(p) == StrNode(reading, Deref(a)) && g(p) == StrNode(reading, Deref(b))
    modifies delta
    ensures delta.paths == old(delta.paths) + One(p, f, g)
  {
    CompareString(delta, reading, p, a, b);
  }

  method VisitField<T(==)>(delta: Delta, p: Path, a: Ref?<T>, b: Ref?<T>,
                           ghost f: Tree<PolicyLeaf>, ghost g: Tree<PolicyLeaf>)
    requires f(p) == g(p) <==> Deref(a) == Deref(b)
    modifies delta
    ensures delta.paths == old(delta.paths) + One(p, f, g)
  {
    CompareField(delta, p, a, b);
  }

  /** Lists of equal length are compared by value; a nil list has length 0. */
  method VisitAdjustments(delta: Delta, p: Path, a: Slice?<StepAdjustment?>, b: Slice?<StepAdjustment?>,
                          ghost f: Tree<PolicyLeaf>, ghost g: Tree<PolicyLeaf>)
    requires f(p) == Leaf(Adjustments(ListOf(AdjustmentsView(a))))
    requires g(p) == Leaf(Adjustments(ListOf(AdjustmentsView(b))))
    modifies delta
    ensures delta.paths == old(delta.paths) + One(p, f, g)
  {
    var x := if a == null then [] else a.items;
    var y := if b == null then [] else b.items;
    assert AdjustmentViews(x) == ListOf(AdjustmentsView(a)) && AdjustmentViews(y) == ListOf(AdjustmentsView(b));
    if |x| != |y| {
      delta.Add(p);
    } else if |x| > 0 {
      if AdjustmentViews(x) != AdjustmentViews(y) {
        delta.Add(p);
      }
    }
  }

  method VisitDimensions(delta: Delta, p: Path, a: Slice?<MetricDimension?>, b: Slice?<MetricDimension?>,
                         ghost f: Tree<PolicyLeaf>, ghost g: Tree<PolicyLeaf>)
    requires f(p) == Leaf(Dims(ListOf(DimensionsView(a)))) && g(p) == Leaf(Dims(ListOf(DimensionsView(b))))
    modifies delta
    ensures delta.paths == old(delta.paths) + One(p, f, g)
  {
    var x := if a == null then [] else a.items;
    var y := if b == null then [] else b.items;
    assert DimensionViews(x) == ListOf(DimensionsView(a)) && DimensionViews(y) == ListOf(DimensionsView(b));
    if |x| != |y| {
      delta.Add(p);
    } else if |x| > 0 {
      if DimensionViews(x) != DimensionViews(y) {
        delta.Add(p);
      }
    }
  }

  ghost predicate AllAbsent(f: Tree<PolicyLeaf>, ps: seq<Path>) {
    forall i :: 0 <= i < |ps| ==> f(ps[i]) == Absent
  }

  ghost predicate NamesShow(reading: NilReading, f: Tree<PolicyLeaf>, at: Path, v: PolicyValue) {
    && f(Under(at, PolicyName)) == StrNode(reading, v.policyName)
    && f(Under(at, PolicyType)) == StrNode(reading, v.policyType)
    && f(Under(at, ResourceID)) == StrNode(reading, v.resourceID)
    && f(Under(at, ScalableDimension)) == StrNode(reading, v.scalableDimension)
    && f(Under(at, ServiceNamespace)) == StrNode(reading, v.serviceNamespace)
  }

  method CompareNames(delta: Delta, reading: NilReading, at: Path, a: ScalingPolicySpec, b: ScalingPolicySpec,
                      ghost f: Tree<PolicyLeaf>, ghost g: Tree<PolicyLeaf>)
    requires Agree(f, g, at)
    requires NamesShow(reading, f, at, a.View()) && NamesShow(reading, g, at, b.View())
    modifies delta
    ensures delta.paths == old(delta.paths) + Recorded(Members(at, NAME_FIELDS), f, g)
  {
    VisitString(delta, reading, Under(at, PolicyName), a.policyName, b.policyName, f, g);
    VisitString(delta, reading, Under(at, PolicyType), a.policyType, b.policyType, f, g);
    VisitString(delta, reading, Under(at, ResourceID), a.resourceID, b.resourceID, f, g);
    VisitString(delta, reading, Under(at, ScalableDimension), a.scalableDimension, b.scalableDimension, f, g);
    VisitString(delta, reading, Under(at, ServiceNamespace), a.serviceNamespace, b.serviceNamespace, f, g);
    RecordFive(old(delta.paths), at, PolicyName, PolicyType, ResourceID, ScalableDimension, ServiceNamespace, f, g);
  }

  /** What a tree shows of one optional struct and its members. */
  ghost predicate ShowsStep(reading: NilReading, f: Tree<PolicyLeaf>, v: Option<StepValue>) {
    && f(STEP) == GroupNode(v)
    && (v.Some? ==> StepMembersShow(reading, f, STEP, v.value))
    && (v.None? ==> AllAbsent(f, Members(STEP, STEP_FIELDS)))
  }

  method CompareStep(delta: Delta, reading: NilReading,
                     a: StepScalingPolicyConfiguration?, b: StepScalingPolicyConfiguration?,
                     ghost f: Tree<PolicyLeaf>, ghost g: Tree<PolicyLeaf>)
    requires Agree(f, g, SPEC)
    requires ShowsStep(reading, f, StepView(a)) && ShowsStep(reading, g, StepView(b))
    modifies delta
    ensures delta.paths == old(delta.paths) + Recorded(STEP_SECTION, f, g)
  {
    RecordGroup(SPEC, StepConfig, Members(STEP, STEP_FIELDS), f, g);
    if (a == null) != (b == null) {
      delta.Add(STEP);
    } else if a != null && b != null {
      CompareStepMembers(delta, reading, STEP, a, b, f, g);
    } else {
      RecordedNone(Members(STEP, STEP_FIELDS), f, g);
    }
  }

  ghost predicate StepMembersShow(reading: NilReading, f: Tree<PolicyLeaf>, at: Path, v: StepValue) {
    && f(Under(at, AdjustmentType)) == StrNode(reading, v.adjustmentType)
    && f(Under(at, Cooldown)) == IntNode(v.cooldown)
    && f(Under(at, MetricAggregationType)) == StrNode(reading, v.metricAggregationType)
    && f(Under(at, MinAdjustmentMagnitude)) == IntNode(v.minAdjustmentMagnitude)
    && f(Under(at, StepAdjustments)) == Leaf(Adjustments(ListOf(v.stepAdjustments)))
  }

  method CompareStepMembers(delta: Delta, reading: NilReading, at: Path,
                            a: StepScalingPolicyConfiguration, b: StepScalingPolicyConfiguration,
                            ghost f: Tree<PolicyLeaf>, ghost g: Tree<PolicyLeaf>)
    requires Agree(f, g, at)
    requires StepMembersShow(reading, f, at, a.View()) && StepMembersShow(reading, g, at, b.View())
    modifies delta
    ensures delta.paths == old(delta.paths) + Recorded(Members(at, STEP_FIELDS), f, g)
  {
    VisitString(delta, reading, Under(at, AdjustmentType), a.adjustmentType, b.adjustmentType, f, g);
    VisitField(delta, Under(at, Cooldown), a.cooldown, b.cooldown, f, g);
    VisitString(delta, reading, Under(at, MetricAggregationType), a.metricAggregationType, b.metricAggregationType,
                f, g);
    VisitField(delta, Under(at, MinAdjustmentMagnitude), a.minAdjustmentMagnitude, b.minAdjustmentMagnitude, f, g);
    VisitAdjustments(delta, Under(at, StepAdjustments), a.stepAdjustments, b.stepAdjustments, f, g);
    RecordFive(old(delta.paths), at,
               AdjustmentType, Cooldown, MetricAggregationType, MinAdjustmentMagnitude, StepAdjustments, f, g);
  }

  ghost predicate ShowsCustomized(reading: NilReading, f: Tree<PolicyLeaf>, v: Option<CustomizedValue>) {
    && f(CUSTOMIZED) == GroupNode(v)
    && (v.Some? ==> CustomizedMembersShow(reading, f, CUSTOMIZED, v.value))
    && (v.None? ==> AllAbsent(f, Members(CUSTOMIZED, CUSTOMIZED_FIELDS)))
  }

  method CompareCustomized(delta: Delta, reading: NilReading,
                           a: CustomizedMetricSpecification?, b: CustomizedMetricSpecification?,
                           ghost f: Tree<PolicyLeaf>, ghost g: Tree<PolicyLeaf>)
    requires Agree(f, g, TRACKING)
    requires ShowsCustomized(reading, f, CustomizedView(a)) && ShowsCustomized(reading, g, CustomizedView(b))
    modifies delta
    ensures delta.paths == old(delta.paths) + Recorded(CUSTOMIZED_SECTION, f, g)
  {
    RecordGroup(TRACKING, CustomizedMetric, Members(CUSTOMIZED, CUSTOMIZED_FIELDS), f, g);
    if (a == null) != (b == null) {
      delta.Add(CUSTOMIZED);
    } else if a != null && b != null {
      CompareCustomizedMembers(delta, reading, CUSTOMIZED, a, b, f, g);
    } else {
      RecordedNone(Members(CUSTOMIZED, CUSTOMIZED_FIELDS), f, g);
    }
  }

  ghost predicate CustomizedMembersShow(reading: NilReading, f: Tree<PolicyLeaf>, at: Path, v: CustomizedValue) {
    && f(Under(at, Dimensions)) == Leaf(Dims(ListOf(v.dimensions)))
    && f(Under(at, MetricName)) == StrNode(reading, v.metricName)
    && f(Under(at, Namespace)) == StrNode(reading, v.namespace)
    && f(Under(at, Statistic)) == StrNode(reading, v.statistic)
    && f(Under(at, Unit)) == StrNode(reading, v.unit)
  }

  method CompareCustomizedMembers(delta: Delta, reading: NilReading, at: Path,
                                  a: CustomizedMetricSpecification, b: CustomizedMetricSpecification,
                                  ghost f: Tree<PolicyLeaf>, ghost g: Tree<PolicyLeaf>)
    requires Agree(f, g, at)
    requires CustomizedMembersShow(reading, f, at, a.View()) && CustomizedMembersShow(reading, g, at, b.View())
    modifies delta
    ensures delta.paths == old(delta.paths) + Recorded(Members(at, CUSTOMIZED_FIELDS), f, g)
  {
    VisitDimensions(delta, Under(at, Dimensions), a.dimensions, b.dimensions, f, g);
    VisitString(delta, reading, Under(at, MetricName), a.metricName, b.metricName, f, g);
    VisitString(delta, reading, Under(at, Namespace), a.namespace, b.namespace, f, g);
    VisitString(delta, reading, Under(at, Statistic), a.statistic, b.statistic, f, g);
    VisitString(delta, reading, Under(at, Unit), a.unit, b.unit, f, g);
    RecordFive(old(delta.paths), at, Dimensions, MetricName, Namespace, Statistic, Unit, f, g);
  }

  ghost predicate ShowsPredefined(reading: NilReading, f: Tree<PolicyLeaf>, v: Option<PredefinedValue>) {
    && f(PREDEFINED) == GroupNode(v)
    && (v.Some? ==>
          && f(Under(PREDEFINED, PredefinedMetricType)) == StrNode(reading, v.value.metricType)
          && f(Under(PREDEFINED, ResourceLabel)) == StrNode(reading, v.value.resourceLabel))
    && (v.None? ==> AllAbsent(f, Members(PREDEFINED, PREDEFINED_FIELDS)))
  }

  method ComparePredefined(delta: Delta, reading: NilReading,
                           a: PredefinedMetricSpecification?, b: PredefinedMetricSpecification?,
                           ghost f: Tree<PolicyLeaf>, ghost g: Tree<PolicyLeaf>)
    requires Agree(f, g, TRACKING)
    requires ShowsPredefined(reading, f, PredefinedView(a)) && ShowsPredefined(reading, g, PredefinedView(b))
    modifies delta
    ensures delta.paths == old(delta.paths) + Recorded(PREDEFINED_SECTION, f, g)
  {
    RecordGroup(TRACKING, PredefinedMetric, Members(PREDEFINED, PREDEFINED_FIELDS), f, g);
    if (a == null) != (b == null) {
      delta.Add(PREDEFINED);
    } else if a != null && b != null {
      VisitString(delta, reading, Under(PREDEFINED, PredefinedMetricType), a.metricType, b.metricType, f, g);
      VisitString(delta, reading, Under(PREDEFINED, ResourceLabel), a.resourceLabel, b.resourceLabel, f, g);
      RecordTwo(old(delta.paths), PREDEFINED, PredefinedMetricType, ResourceLabel, f, g);
    } else {
      RecordedNone(Members(PREDEFINED, PREDEFINED_FIELDS), f, g);
    }
  }

  lemma Reassociate(s: seq<Path>, a: seq<Path>, b: seq<Path>, c: seq<Path>, d: seq<Path>)
    ensures s + a + b + c + d == s + (a + b + c + d)
  {
  }

  lemma TrackingMembersSplit(start: seq<Path>, f: Tree<PolicyLeaf>, g: Tree<PolicyLeaf>)
    requires Agree(f, g, TRACKING)
    ensures start + Recorded(TRACKING_MEMBERS, f, g)
            == start + Recorded(CUSTOMIZED_SECTION, f, g) + One(Under(TRACKING, DisableScaleIn), f, g)
               + Recorded(PREDEFINED_SECTION, f, g)
               + Recorded(Members(TRACKING, [ScaleInCooldown, ScaleOutCooldown, TargetValue]), f, g)
  {
    Reassociate(start, Recorded(CUSTOMIZED_SECTION, f, g), One(Under(TRACKING, DisableScaleIn), f, g),
                Recorded(PREDEFINED_SECTION, f, g),
                Recorded(Members(TRACKING, [ScaleInCooldown, ScaleOutCooldown, TargetValue]), f, g));
    RecordedAppend(CUSTOMIZED_SECTION + Members(TRACKING, [DisableScaleIn]) + PREDEFINED_SECTION,
                   Members(TRACKING, [ScaleInCooldown, ScaleOutCooldown, TargetValue]), f, g);
    RecordedAppend(CUSTOMIZED_SECTION + Members(TRACKING, [DisableScaleIn]), PREDEFINED_SECTION, f, g);
    RecordedAppend(CUSTOMIZED_SECTION, Members(TRACKING, [DisableScaleIn]), f, g);
    RecordMember(TRACKING, [], DisableScaleIn, f, g);
    assert Members(TRACKING, []) == [] && [] + [DisableScaleIn] == [DisableScaleIn];
  }

  ghost predicate ScalarsShow(reading: NilReading, f: Tree<PolicyLeaf>, at: Path, v: TrackingValue) {
    && f(Under(at, ScaleInCooldown)) == IntNode(v.scaleInCooldown)
    && f(Under(at, ScaleOutCooldown)) == IntNode(v.scaleOutCooldown)
    && f(Under(at, TargetValue)) == NumNode(v.targetValue)
  }

  method CompareTrackingScalars(delta: Delta, at: Path,
                                a: TargetTrackingScalingPolicyConfiguration,
                                b: TargetTrackingScalingPolicyConfiguration,
                                ghost f: Tree<PolicyLeaf>, ghost g: Tree<PolicyLeaf>, ghost reading: NilReading)
    requires Agree(f, g, at)
    requires ScalarsShow(reading, f, at, a.View()) && ScalarsShow(reading, g, at, b.View())
    modifies delta
    ensures delta.paths == old(delta.paths)
                           + Recorded(Members(at, [ScaleInCooldown, ScaleOutCooldown, TargetValue]), f, g)
  {
    VisitField(delta, Under(at, ScaleInCooldown), a.scaleInCooldown, b.scaleInCooldown, f, g);
    VisitField(delta, Under(at, ScaleOutCooldown), a.scaleOutCooldown, b.scaleOutCooldown, f, g);
    VisitField(delta, Under(at, TargetValue), a.targetValue, b.targetValue, f, g);
    RecordThree(old(delta.paths), at, ScaleInCooldown, ScaleOutCooldown, TargetValue, f, g);
  }

  ghost predicate TrackingMembersShow(reading: NilReading, f: Tree<PolicyLeaf>, v: TrackingValue) {
    && ShowsCustomized(reading, f, v.customized)
    && f(Under(TRACKING, DisableScaleIn)) == FlagNode(v.disableScaleIn)
    && ShowsPredefined(reading, f, v.predefined)
    && ScalarsShow(reading, f, TRACKING, v)
  }

  ghost predicate ShowsTracking(reading: NilReading, f: Tree<PolicyLeaf>, v: Option<TrackingValue>) {
    && f(TRACKING) == GroupNode(v)
    && (v.Some? ==> TrackingMembersShow(reading, f, v.value))
    && (v.None? ==> AllAbsent(f, TRACKING_MEMBERS))
  }

  method CompareTrackingMembers(delta: Delta, reading: NilReading,
                                a: TargetTrackingScalingPolicyConfiguration,
                                b: TargetTrackingScalingPolicyConfiguration,
                                ghost f: Tree<PolicyLeaf>, ghost g: Tree<PolicyLeaf>)
    requires Agree(f, g, TRACKING)
    requires TrackingMembersShow(reading, f, a.View()) && TrackingMembersShow(reading, g, b.View())
    modifies delta
    ensures delta.paths == old(delta.paths) + Recorded(TRACKING_MEMBERS, f, g)
  {
    CompareCustomized(delta, reading, a.customized, b.customized, f, g);
    VisitField(delta, Under(TRACKING, DisableScaleIn), a.disableScaleIn, b.disableScaleIn, f, g);
    ComparePredefined(delta, reading, a.predefined, b.predefined, f, g);
    CompareTrackingScalars(delta, TRACKING, a, b, f, g, reading);
    TrackingMembersSplit(old(delta.paths), f, g);
  }

  method CompareTracking(delta: Delta, reading: NilReading,
                         a: TargetTrackingScalingPolicyConfiguration?, b: TargetTrackingScalingPolicyConfiguration?,
                         ghost f: Tree<PolicyLeaf>, ghost g: Tree<PolicyLeaf>)
    requires Agree(f, g, SPEC)
    requires ShowsTracking(reading, f, TrackingView(a)) && ShowsTracking(reading, g, TrackingView(b))
    modifies delta
    ensures delta.paths == old(delta.paths) + Recorded(TRACKING_SECTION, f, g)
  {
    TrackingMembersInside();
    RecordGroup(SPEC, TrackingConfig, TRACKING_MEMBERS, f, g);
    if (a == null) != (b == null) {
      delta.Add(TRACKING);
    } else if a != null && b != null {
      CompareTrackingMembers(delta, reading, a, b, f, g);
    } else {
      RecordedNone(TRACKING_MEMBERS, f, g);
    }
  }

  lemma TrackingMembersInside()
    ensures forall i :: 0 <= i < |TRACKING_MEMBERS| ==>
      |TRACKING_MEMBERS[i]| > |SPEC| + 1 && TRACKING_MEMBERS[i][..|SPEC| + 1] == Under(SPEC, TrackingConfig)
  {
  }

  lemma NamesTree(reading: NilReading, v: PolicyValue)
    ensures NamesShow(reading, PolicyTree(reading, v), SPEC, v)
  {
  }

  lemma StepTree(reading: NilReading, v: PolicyValue)
    ensures ShowsStep(reading, PolicyTree(reading, v), v.step)
  {
  }

  ghost function CustomizedIn(v: PolicyValue): Option<CustomizedValue> {
    if v.tracking.None? then None else v.tracking.value.customized
  }

  lemma CustomizedAt(reading: NilReading, v: PolicyValue, m: Field)
    ensures PolicyTree(reading, v)(Under(CUSTOMIZED, m))
            == if CustomizedIn(v).None? then Absent else CustomizedNode(reading, CustomizedIn(v).value, m)
  {
  }

  lemma CustomizedGroup(reading: NilReading, v: PolicyValue)
    ensures PolicyTree(reading, v)(CUSTOMIZED) == GroupNode(CustomizedIn(v))
  {
  }

  /** From the members one by one to the group, for any tree. */
  lemma CustomizedShown(reading: NilReading, f: Tree<PolicyLeaf>, c: Option<CustomizedValue>)
    requires f(CUSTOMIZED) == GroupNode(c)
    requires forall m :: f(Under(CUSTOMIZED, m)) == if c.None? then Absent else CustomizedNode(reading, c.value, m)
    ensures ShowsCustomized(reading, f, c)
  {
  }

  lemma CustomizedTree(reading: NilReading, v: PolicyValue)
    ensures ShowsCustomized(reading, PolicyTree(reading, v), CustomizedIn(v))
  {
    var f := PolicyTree(reading, v);
    forall m
      ensures f(Under(CUSTOMIZED, m))
              == if CustomizedIn(v).None? then Absent else CustomizedNode(reading, CustomizedIn(v).value, m)
    {
      CustomizedAt(reading, v, m);
    }
    CustomizedGroup(reading, v);
    CustomizedShown(reading, f, CustomizedIn(v));
  }

  lemma PredefinedTree(reading: NilReading, v: PolicyValue)
    ensures ShowsPredefined(reading, PolicyTree(reading, v),
                            if v.tracking.None? then None else v.tracking.value.predefined)
  {
  }

  lemma TrackingAt(reading: NilReading, v: PolicyValue, m: Field)
    ensures PolicyTree(reading, v)(Under(TRACKING, m))
            == if v.tracking.None? then Absent else TrackingNode(reading, v.tracking.value, m)
  {
  }

  lemma TrackingAbsent(reading: NilReading, v: PolicyValue)
    requires v.tracking.None?
    ensures AllAbsent(PolicyTree(reading, v), TRACKING_MEMBERS)
  {
  }

  lemma ScalarsTree(reading: NilReading, v: PolicyValue)
    requires v.tracking.Some?
    ensures ScalarsShow(reading, PolicyTree(reading, v), TRACKING, v.tracking.value)
  {
  }

  lemma TrackingMembersTree(reading: NilReading, v: PolicyValue)
    requires v.tracking.Some?
    ensures TrackingMembersShow(reading, PolicyTree(reading, v), v.tracking.value)
  {
    CustomizedTree(reading, v);
    PredefinedTree(reading, v);
    TrackingAt(reading, v, DisableScaleIn);
    ScalarsTree(reading, v);
  }

  lemma TrackingTree(reading: NilReading, v: PolicyValue)
    ensures ShowsTracking(reading, PolicyTree(reading, v), v.tracking)
  {
    assert PolicyTree(reading, v)(TRACKING) == GroupNode(v.tracking);
    if v.tracking.None? {
      TrackingAbsent(reading, v);
    } else {
      TrackingMembersTree(reading, v);
    }
  }

  lemma SpecAgrees(f: Tree<PolicyLeaf>, g: Tree<PolicyLeaf>)
    requires f(SPEC) == g(SPEC)
    ensures Agree(f, g, SPEC)
  {
    assert SPEC[..1] == SPEC;
  }

  // The three parts of the comparison, each on the trees of the two Specs `v` and `u`.

  method CompareNamesOf(delta: Delta, reading: NilReading, a: ScalingPolicySpec, b: ScalingPolicySpec,
                        ghost v: PolicyValue, ghost u: PolicyValue)
    requires a.View() == v && b.View() == u
    modifies delta
    ensures delta.paths
            == old(delta.paths) + Recorded(Members(SPEC, NAME_FIELDS), PolicyTree(reading, v), PolicyTree(reading, u))
    ensures a.View() == v && b.View() == u
  {
    NamesTree(reading, v);
    NamesTree(reading, u);
    SpecAgrees(PolicyTree(reading, v), PolicyTree(reading, u));
    CompareNames(delta, reading, SPEC, a, b, PolicyTree(reading, v), PolicyTree(reading, u));
  }

  method CompareStepOf(delta: Delta, reading: NilReading, a: ScalingPolicySpec, b: ScalingPolicySpec,
                       ghost v: PolicyValue, ghost u: PolicyValue)
    requires StepView(a.step) == v.step && StepView(b.step) == u.step
    requires TrackingView(a.tracking) == v.tracking && TrackingView(b.tracking) == u.tracking
    modifies delta
    ensures delta.paths == old(delta.paths) + Recorded(STEP_SECTION, PolicyTree(reading, v), PolicyTree(reading, u))
    ensures TrackingView(a.tracking) == v.tracking && TrackingView(b.tracking) == u.tracking
  {
    StepTree(reading, v);
    StepTree(reading, u);
    SpecAgrees(PolicyTree(reading, v), PolicyTree(reading, u));
    CompareStep(delta, reading, a.step, b.step, PolicyTree(reading, v), PolicyTree(reading, u));
  }

  method CompareTrackingOf(delta: Delta, reading: NilReading, a: ScalingPolicySpec, b: ScalingPolicySpec,
                           ghost v: PolicyValue, ghost u: PolicyValue)
    requires TrackingView(a.tracking) == v.tracking && TrackingView(b.tracking) == u.tracking
    modifies delta
    ensures delta.paths == old(delta.paths) + Recorded(TRACKING_SECTION, PolicyTree(reading, v), PolicyTree(reading, u))
  {
    TrackingTree(reading, v);
    TrackingTree(reading, u);
    SpecAgrees(PolicyTree(reading, v), PolicyTree(reading, u));
    CompareTracking(delta, reading, a.tracking, b.tracking, PolicyTree(reading, v), PolicyTree(reading, u));
  }

  method CompareSpecs(delta: Delta, reading: NilReading, a: ScalingPolicySpec, b: ScalingPolicySpec,
                      ghost v: PolicyValue, ghost u: PolicyValue)
    requires a.View() == v && b.View() == u
    modifies delta
    ensures var f, g := PolicyTree(reading, v), PolicyTree(reading, u);
            delta.paths == old(delta.paths) + Recorded(Members(SPEC, NAME_FIELDS), f, g)
                           + Recorded(STEP_SECTION, f, g) + Recorded(TRACKING_SECTION, f, g)
  {
    CompareNamesOf(delta, reading, a, b, v, u);
    CompareStepOf(delta, reading, a, b, v, u);
    CompareTrackingOf(delta, reading, a, b, v, u);
  }

  method NewResourceDelta(reading: NilReading, a: ScalingPolicy?, b: ScalingPolicy?) returns (delta: Delta)
    requires a != null || b != null
    ensures fresh(delta)
    ensures (a == null) != (b == null) ==> delta.paths == [[]]
    ensures a != null && b != null ==>
      delta.paths
      == Recorded(POLICY_SCHEMA, PolicyTree(reading, old(a.spec.View())), PolicyTree(reading, old(b.spec.View())))
  {
    delta := new Delta();
    if (a == null) != (b == null) {
      delta.Add([]);
      return;
    }
    ghost var v, u := old(a.spec.View()), old(b.spec.View());
    CompareSpecs(delta, reading, a.spec, b.spec, v, u);
    SchemaSplit(PolicyTree(reading, v), PolicyTree(reading, u));
  }

  lemma SchemaSplit(f: Tree<PolicyLeaf>, g: Tree<PolicyLeaf>)
    ensures Recorded(POLICY_SCHEMA, f, g)
            == [] + Recorded(Members(SPEC, NAME_FIELDS), f, g) + Recorded(STEP_SECTION, f, g)
               + Recorded(TRACKING_SECTION, f, g)
  {
    assert [] + Recorded(Members(SPEC, NAME_FIELDS), f, g) == Recorded(Members(SPEC, NAME_FIELDS), f, g);
    RecordedAppend(Members(SPEC, NAME_FIELDS) + STEP_SECTION, TRACKING_SECTION, f, g);
    RecordedAppend(Members(SPEC, NAME_FIELDS), STEP_SECTION, f, g);
  }
}
