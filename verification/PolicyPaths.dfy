/** Which path a ScalingPolicy comparison records for which difference, path by path and in plain terms. */
module PolicyPaths {
  import opened Pointers
  import opened PolicyApi
  import opened Deltas
  import PolicyDelta

  /** Two optional strings differ, where "" and nil count as one under the looser reading. */
  ghost predicate StringsDiffer(reading: NilReading, a: Option<string>, b: Option<string>) {
    a != b && !(reading.EmptyIsNil? && a in {None, Some("")} && b in {None, Some("")})
  }

  /** Two lists differ, where a missing list counts as an empty one. */
  ghost predicate ListsDiffer<T>(a: Option<seq<T>>, b: Option<seq<T>>) {
    match (a, b)
    case (None, None) => false
    case (Some(x), None) => x != []
    case (None, Some(y)) => y != []
    case (Some(x), Some(y)) => x != y
  }

  /** What the comparison of two Specs records. */
  ghost function Paths(reading: NilReading, v: PolicyValue, u: PolicyValue): seq<Path> {
    Recorded(PolicyDelta.POLICY_SCHEMA, PolicyDelta.PolicyTree(reading, v), PolicyDelta.PolicyTree(reading, u))
  }

  lemma MemberIn(parent: Path, fields: seq<Field>, i: nat)
    requires i < |fields|
    ensures parent + [fields[i]] in Members(parent, fields)
  {
    assert Members(parent, fields)[i] == parent + [fields[i]];
  }

  lemma SectionIn(p: Path)
    requires p in Members(PolicyDelta.SPEC, PolicyDelta.NAME_FIELDS) || p in PolicyDelta.STEP_SECTION
             || p in PolicyDelta.TRACKING_SECTION
    ensures p in PolicyDelta.POLICY_SCHEMA
  {
  }

  lemma TopPath(reading: NilReading, v: PolicyValue, u: PolicyValue, m: Field)
    requires [Spec, m] in PolicyDelta.POLICY_SCHEMA
    ensures [Spec, m] in Paths(reading, v, u)
            <==> PolicyDelta.SpecNode(reading, v, m) != PolicyDelta.SpecNode(reading, u, m)
  {
    var f, g, p := PolicyDelta.PolicyTree(reading, v), PolicyDelta.PolicyTree(reading, u), [Spec, m];
    RecordedMember(PolicyDelta.POLICY_SCHEMA, f, g, p);
    MinimalTop(f, g, Spec, m);
  }

  lemma InnerPath(reading: NilReading, v: PolicyValue, u: PolicyValue, s: Field, m: Field)
    requires [Spec, s, m] in PolicyDelta.POLICY_SCHEMA
    ensures [Spec, s, m] in Paths(reading, v, u)
            <==> && PolicyDelta.SpecNode(reading, v, s) == PolicyDelta.SpecNode(reading, u, s)
                 && PolicyDelta.NodeAt(reading, v, [Spec, s, m]) != PolicyDelta.NodeAt(reading, u, [Spec, s, m])
  {
    var f, g, p := PolicyDelta.PolicyTree(reading, v), PolicyDelta.PolicyTree(reading, u), [Spec, s, m];
    RecordedMember(PolicyDelta.POLICY_SCHEMA, f, g, p);
    MinimalInner(f, g, Spec, s, m);
  }

  lemma DeepPath(reading: NilReading, v: PolicyValue, u: PolicyValue, s: Field, t: Field, m: Field)
    requires [Spec, s, t, m] in PolicyDelta.POLICY_SCHEMA
    ensures [Spec, s, t, m] in Paths(reading, v, u)
            <==> && PolicyDelta.SpecNode(reading, v, s) == PolicyDelta.SpecNode(reading, u, s)
                 && PolicyDelta.NodeAt(reading, v, [Spec, s, t]) == PolicyDelta.NodeAt(reading, u, [Spec, s, t])
                 && PolicyDelta.NodeAt(reading, v, [Spec, s, t, m]) != PolicyDelta.NodeAt(reading, u, [Spec, s, t, m])
  {
    var f, g, p := PolicyDelta.PolicyTree(reading, v), PolicyDelta.PolicyTree(reading, u), [Spec, s, t, m];
    RecordedMember(PolicyDelta.POLICY_SCHEMA, f, g, p);
    MinimalDeep(f, g, Spec, s, t, m);
  }

  // ----- Nodes that differ, in plain terms -----

  lemma SpecNodes(reading: NilReading, v: PolicyValue, u: PolicyValue, m: Field)
    ensures PolicyDelta.SpecNode(reading, v, m) != PolicyDelta.SpecNode(reading, u, m)
            <==> match m
                 case PolicyName => StringsDiffer(reading, v.policyName, u.policyName)
                 case PolicyType => StringsDiffer(reading, v.policyType, u.policyType)
                 case ResourceID => StringsDiffer(reading, v.resourceID, u.resourceID)
                 case ScalableDimension => StringsDiffer(reading, v.scalableDimension, u.scalableDimension)
                 case ServiceNamespace => StringsDiffer(reading, v.serviceNamespace, u.serviceNamespace)
                 case StepConfig => v.step.Some? != u.step.Some?
                 case TrackingConfig => v.tracking.Some? != u.tracking.Some?
                 case _ => false
  {
  }

  lemma StepNodes(reading: NilReading, a: StepValue, b: StepValue, m: Field)
    ensures PolicyDelta.StepNode(reading, a, m) != PolicyDelta.StepNode(reading, b, m)
            <==> match m
                 case AdjustmentType => StringsDiffer(reading, a.adjustmentType, b.adjustmentType)
                 case Cooldown => a.cooldown != b.cooldown
                 case MetricAggregationType => StringsDiffer(reading, a.metricAggregationType, b.metricAggregationType)
                 case MinAdjustmentMagnitude => a.minAdjustmentMagnitude != b.minAdjustmentMagnitude
                 case StepAdjustments => ListsDiffer(a.stepAdjustments, b.stepAdjustments)
                 case _ => false
  {
  }

  lemma TrackingNodes(reading: NilReading, a: TrackingValue, b: TrackingValue, m: Field)
    ensures PolicyDelta.TrackingNode(reading, a, m) != PolicyDelta.TrackingNode(reading, b, m)
            <==> match m
                 case CustomizedMetric => a.customized.Some? != b.customized.Some?
                 case DisableScaleIn => a.disableScaleIn != b.disableScaleIn
                 case PredefinedMetric => a.predefined.Some? != b.predefined.Some?
                 case ScaleInCooldown => a.scaleInCooldown != b.scaleInCooldown
                 case ScaleOutCooldown => a.scaleOutCooldown != b.scaleOutCooldown
                 case TargetValue => a.targetValue != b.targetValue
                 case _ => false
  {
  }

  lemma CustomizedNodes(reading: NilReading, a: CustomizedValue, b: CustomizedValue, m: Field)
    ensures PolicyDelta.CustomizedNode(reading, a, m) != PolicyDelta.CustomizedNode(reading, b, m)
            <==> match m
                 case Dimensions => ListsDiffer(a.dimensions, b.dimensions)
                 case MetricName => StringsDiffer(reading, a.metricName, b.metricName)
                 case Namespace => StringsDiffer(reading, a.namespace, b.namespace)
                 case Statistic => StringsDiffer(reading, a.statistic, b.statistic)
                 case Unit => StringsDiffer(reading, a.unit, b.unit)
                 case _ => false
  {
  }

  lemma PredefinedNodes(reading: NilReading, a: PredefinedValue, b: PredefinedValue, m: Field)
    ensures PolicyDelta.PredefinedNode(reading, a, m) != PolicyDelta.PredefinedNode(reading, b, m)
            <==> match m
                 case PredefinedMetricType => StringsDiffer(reading, a.metricType, b.metricType)
                 case ResourceLabel => StringsDiffer(reading, a.resourceLabel, b.resourceLabel)
                 case _ => false
  {
  }

  // ----- Path by path -----

  lemma TopIn(m: Field)
    requires m in PolicyDelta.NAME_FIELDS || m == StepConfig || m == TrackingConfig
    ensures [Spec, m] in PolicyDelta.POLICY_SCHEMA
  {
    assert [Spec] + [m] == [Spec, m];
    MemberIn([Spec], [m], 0);
    if m in PolicyDelta.NAME_FIELDS {
      var i :| 0 <= i < |PolicyDelta.NAME_FIELDS| && PolicyDelta.NAME_FIELDS[i] == m;
      MemberIn([Spec], PolicyDelta.NAME_FIELDS, i);
    }
    SectionIn([Spec, m]);
  }

  /** The five keys, by value, and the two struct parts, by presence. */
  lemma TopPaths(reading: NilReading, v: PolicyValue, u: PolicyValue, m: Field)
    requires m in PolicyDelta.NAME_FIELDS || m == StepConfig || m == TrackingConfig
    ensures [Spec, m] in Paths(reading, v, u)
            <==> match m
                 case PolicyName => StringsDiffer(reading, v.policyName, u.policyName)
                 case PolicyType => StringsDiffer(reading, v.policyType, u.policyType)
                 case ResourceID => StringsDiffer(reading, v.resourceID, u.resourceID)
                 case ScalableDimension => StringsDiffer(reading, v.scalableDimension, u.scalableDimension)
                 case ServiceNamespace => StringsDiffer(reading, v.serviceNamespace, u.serviceNamespace)
                 case StepConfig => v.step.Some? != u.step.Some?
                 case TrackingConfig => v.tracking.Some? != u.tracking.Some?
                 case _ => false
  {
    TopIn(m);
    TopPath(reading, v, u, m);
    SpecNodes(reading, v, u, m);
  }

  lemma StepIn(m: Field)
    requires m in PolicyDelta.STEP_FIELDS
    ensures [Spec, StepConfig, m] in PolicyDelta.POLICY_SCHEMA
  {
    var i :| 0 <= i < |PolicyDelta.STEP_FIELDS| && PolicyDelta.STEP_FIELDS[i] == m;
    MemberIn(PolicyDelta.STEP, PolicyDelta.STEP_FIELDS, i);
    assert PolicyDelta.STEP + [m] == [Spec, StepConfig, m];
    SectionIn([Spec, StepConfig, m]);
  }

  /** The members of the step configuration: recorded when both Specs have one and it differs there. */
  lemma StepPaths(reading: NilReading, v: PolicyValue, u: PolicyValue, m: Field)
    requires m in PolicyDelta.STEP_FIELDS
    ensures [Spec, StepConfig, m] in Paths(reading, v, u)
            <==> v.step.Some? && u.step.Some? &&
                 var a, b := v.step.value, u.step.value;
                 match m
                 case AdjustmentType => StringsDiffer(reading, a.adjustmentType, b.adjustmentType)
                 case Cooldown => a.cooldown != b.cooldown
                 case MetricAggregationType => StringsDiffer(reading, a.metricAggregationType, b.metricAggregationType)
                 case MinAdjustmentMagnitude => a.minAdjustmentMagnitude != b.minAdjustmentMagnitude
                 case StepAdjustments => ListsDiffer(a.stepAdjustments, b.stepAdjustments)
                 case _ => false
  {
    StepIn(m);
    InnerPath(reading, v, u, StepConfig, m);
    if v.step.Some? && u.step.Some? {
      StepNodes(reading, v.step.value, u.step.value, m);
    }
  }

  const TRACKING_FIELDS :=
    [CustomizedMetric, DisableScaleIn, PredefinedMetric, ScaleInCooldown, ScaleOutCooldown, TargetValue]

  lemma TrackingIn(m: Field)
    requires m in TRACKING_FIELDS
    ensures [Spec, TrackingConfig, m] in PolicyDelta.POLICY_SCHEMA
  {
    var at := PolicyDelta.TRACKING;
    MemberIn(at, [m], 0);
    if m in [ScaleInCooldown, ScaleOutCooldown, TargetValue] {
      MemberIn(at, [ScaleInCooldown, ScaleOutCooldown, TargetValue],
               if m == ScaleInCooldown then 0 else if m == ScaleOutCooldown then 1 else 2);
    }
    assert at + [m] == [Spec, TrackingConfig, m];
    SectionIn([Spec, TrackingConfig, m]);
  }

  /** The members of the target tracking configuration, likewise; the two metrics by presence. */
  lemma TrackingPaths(reading: NilReading, v: PolicyValue, u: PolicyValue, m: Field)
    requires m in TRACKING_FIELDS
    ensures [Spec, TrackingConfig, m] in Paths(reading, v, u)
            <==> v.tracking.Some? && u.tracking.Some? &&
                 var a, b := v.tracking.value, u.tracking.value;
                 match m
                 case CustomizedMetric => a.customized.Some? != b.customized.Some?
                 case DisableScaleIn => a.disableScaleIn != b.disableScaleIn
                 case PredefinedMetric => a.predefined.Some? != b.predefined.Some?
                 case ScaleInCooldown => a.scaleInCooldown != b.scaleInCooldown
                 case ScaleOutCooldown => a.scaleOutCooldown != b.scaleOutCooldown
                 case TargetValue => a.targetValue != b.targetValue
                 case _ => false
  {
    TrackingIn(m);
    InnerPath(reading, v, u, TrackingConfig, m);
    if v.tracking.Some? && u.tracking.Some? {
      TrackingNodes(reading, v.tracking.value, u.tracking.value, m);
    }
  }

  lemma CustomizedNodeAt(reading: NilReading, v: PolicyValue, m: Field)
    requires v.tracking.Some?
    ensures PolicyDelta.NodeAt(reading, v, [Spec, TrackingConfig, CustomizedMetric])
            == if v.tracking.value.customized.Some? then Group else Absent
    ensures PolicyDelta.NodeAt(reading, v, [Spec, TrackingConfig, CustomizedMetric, m])
            == if v.tracking.value.customized.None? then Absent
               else PolicyDelta.CustomizedNode(reading, v.tracking.value.customized.value, m)
  {
  }

  lemma PredefinedNodeAt(reading: NilReading, v: PolicyValue, m: Field)
    requires v.tracking.Some?
    ensures PolicyDelta.NodeAt(reading, v, [Spec, TrackingConfig, PredefinedMetric])
            == if v.tracking.value.predefined.Some? then Group else Absent
    ensures PolicyDelta.NodeAt(reading, v, [Spec, TrackingConfig, PredefinedMetric, m])
            == if v.tracking.value.predefined.None? then Absent
               else PolicyDelta.PredefinedNode(reading, v.tracking.value.predefined.value, m)
  {
  }

  lemma CustomizedIn(m: Field)
    requires m in PolicyDelta.CUSTOMIZED_FIELDS
    ensures [Spec, TrackingConfig, CustomizedMetric, m] in PolicyDelta.POLICY_SCHEMA
  {
    var i :| 0 <= i < |PolicyDelta.CUSTOMIZED_FIELDS| && PolicyDelta.CUSTOMIZED_FIELDS[i] == m;
    MemberIn(PolicyDelta.CUSTOMIZED, PolicyDelta.CUSTOMIZED_FIELDS, i);
    assert PolicyDelta.CUSTOMIZED + [m] == [Spec, TrackingConfig, CustomizedMetric, m];
    SectionIn([Spec, TrackingConfig, CustomizedMetric, m]);
  }

  /** The members of the customized metric: recorded when both Specs have one and it differs there. */
  lemma CustomizedPaths(reading: NilReading, v: PolicyValue, u: PolicyValue, m: Field)
    requires m in PolicyDelta.CUSTOMIZED_FIELDS
    ensures [Spec, TrackingConfig, CustomizedMetric, m] in Paths(reading, v, u)
            <==> && v.tracking.Some? && v.tracking.value.customized.Some?
                 && u.tracking.Some? && u.tracking.value.customized.Some?
                 && var a, b := v.tracking.value.customized.value, u.tracking.value.customized.value;
                    match m
                    case Dimensions => ListsDiffer(a.dimensions, b.dimensions)
                    case MetricName => StringsDiffer(reading, a.metricName, b.metricName)
                    case Namespace => StringsDiffer(reading, a.namespace, b.namespace)
                    case Statistic => StringsDiffer(reading, a.statistic, b.statistic)
                    case Unit => StringsDiffer(reading, a.unit, b.unit)
                    case _ => false
  {
    CustomizedIn(m);
    DeepPath(reading, v, u, TrackingConfig, CustomizedMetric, m);
    if v.tracking.Some? && u.tracking.Some? {
      CustomizedNodeAt(reading, v, m);
      CustomizedNodeAt(reading, u, m);
      if v.tracking.value.customized.Some? && u.tracking.value.customized.Some? {
        CustomizedNodes(reading, v.tracking.value.customized.value, u.tracking.value.customized.value, m);
      }
    }
  }

  lemma PredefinedIn(m: Field)
    requires m in PolicyDelta.PREDEFINED_FIELDS
    ensures [Spec, TrackingConfig, PredefinedMetric, m] in PolicyDelta.POLICY_SCHEMA
  {
    var i :| 0 <= i < |PolicyDelta.PREDEFINED_FIELDS| && PolicyDelta.PREDEFINED_FIELDS[i] == m;
    MemberIn(PolicyDelta.PREDEFINED, PolicyDelta.PREDEFINED_FIELDS, i);
    assert PolicyDelta.PREDEFINED + [m] == [Spec, TrackingConfig, PredefinedMetric, m];
    SectionIn([Spec, TrackingConfig, PredefinedMetric, m]);
  }

  /** The members of the predefined metric: recorded when both Specs have one and it differs there. */
  lemma PredefinedPaths(reading: NilReading, v: PolicyValue, u: PolicyValue, m: Field)
    requires m in PolicyDelta.PREDEFINED_FIELDS
    ensures [Spec, TrackingConfig, PredefinedMetric, m] in Paths(reading, v, u)
            <==> && v.tracking.Some? && v.tracking.value.predefined.Some?
                 && u.tracking.Some? && u.tracking.value.predefined.Some?
                 && var a, b := v.tracking.value.predefined.value, u.tracking.value.predefined.value;
                    match m
                    case PredefinedMetricType => StringsDiffer(reading, a.metricType, b.metricType)
                    case ResourceLabel => StringsDiffer(reading, a.resourceLabel, b.resourceLabel)
                    case _ => false
  {
    PredefinedIn(m);
    DeepPath(reading, v, u, TrackingConfig, PredefinedMetric, m);
    if v.tracking.Some? && u.tracking.Some? {
      PredefinedNodeAt(reading, v, m);
      PredefinedNodeAt(reading, u, m);
      if v.tracking.value.predefined.Some? && u.tracking.value.predefined.Some? {
        PredefinedNodes(reading, v.tracking.value.predefined.value, u.tracking.value.predefined.value, m);
      }
    }
  }
}
