/** What the ScalingPolicy comparison means: exact equality, and the shape of the recorded paths. */
module PolicyDeltaLaws {
  import opened Pointers
  import opened PolicyApi
  import opened Deltas
  import opened PolicyDelta

  // ----- Equality as the comparison sees it -----

  /** A missing list reads as an empty one, and any other list as it is. */
  ghost function ReadList<T>(l: Option<seq<T>>): Option<seq<T>> {
    if l.None? then Some([]) else l
  }

  ghost function ReadStep(reading: NilReading, v: StepValue): StepValue {
    v.(adjustmentType := ReadString(reading, v.adjustmentType),
       metricAggregationType := ReadString(reading, v.metricAggregationType),
       stepAdjustments := ReadList(v.stepAdjustments))
  }

  ghost function ReadMaybeStep(reading: NilReading, v: Option<StepValue>): Option<StepValue> {
    if v.None? then None else Some(ReadStep(reading, v.value))
  }

  ghost function ReadCustomized(reading: NilReading, v: Option<CustomizedValue>): Option<CustomizedValue> {
    if v.None? then None
    else Some(CustomizedValue(ReadList(v.value.dimensions), ReadString(reading, v.value.metricName),
                              ReadString(reading, v.value.namespace), ReadString(reading, v.value.statistic),
                              ReadString(reading, v.value.unit)))
  }

  ghost function ReadPredefined(reading: NilReading, v: Option<PredefinedValue>): Option<PredefinedValue> {
    if v.None? then None
    else Some(PredefinedValue(ReadString(reading, v.value.metricType), ReadString(reading, v.value.resourceLabel)))
  }

  ghost function ReadTracking(reading: NilReading, v: Option<TrackingValue>): Option<TrackingValue> {
    if v.None? then None
    else Some(v.value.(customized := ReadCustomized(reading, v.value.customized),
                       predefined := ReadPredefined(reading, v.value.predefined)))
  }

  /** The Spec with nil lists made empty and, under the looser reading, pointers to "" made nil. */
  ghost function ReadPolicy(reading: NilReading, v: PolicyValue): PolicyValue {
    PolicyValue(ReadString(reading, v.policyName), ReadString(reading, v.policyType),
                ReadString(reading, v.resourceID), ReadString(reading, v.scalableDimension),
                ReadString(reading, v.serviceNamespace),
                ReadMaybeStep(reading, v.step), ReadTracking(reading, v.tracking))
  }

  // ----- Section by section -----

  lemma OnesEmpty(parent: Path, m0: Field, m1: Field, m2: Field, m3: Field, m4: Field,
                  f: Tree<PolicyLeaf>, g: Tree<PolicyLeaf>)
    requires Agree(f, g, parent)
    ensures Recorded(Members(parent, [m0, m1, m2, m3, m4]), f, g) == []
            <==> && f(Under(parent, m0)) == g(Under(parent, m0)) && f(Under(parent, m1)) == g(Under(parent, m1))
                 && f(Under(parent, m2)) == g(Under(parent, m2)) && f(Under(parent, m3)) == g(Under(parent, m3))
                 && f(Under(parent, m4)) == g(Under(parent, m4))
  {
    RecordFive([], parent, m0, m1, m2, m3, m4, f, g);
    var r := Recorded(Members(parent, [m0, m1, m2, m3, m4]), f, g);
    assert [] + r == r;
  }

  lemma NamesExact(reading: NilReading, f: Tree<PolicyLeaf>, g: Tree<PolicyLeaf>, v: PolicyValue, u: PolicyValue)
    requires Agree(f, g, SPEC)
    requires NamesShow(reading, f, SPEC, v) && NamesShow(reading, g, SPEC, u)
    ensures Recorded(Members(SPEC, NAME_FIELDS), f, g) == []
            <==> && ReadString(reading, v.policyName) == ReadString(reading, u.policyName)
                 && ReadString(reading, v.policyType) == ReadString(reading, u.policyType)
                 && ReadString(reading, v.resourceID) == ReadString(reading, u.resourceID)
                 && ReadString(reading, v.scalableDimension) == ReadString(reading, u.scalableDimension)
                 && ReadString(reading, v.serviceNamespace) == ReadString(reading, u.serviceNamespace)
  {
    OnesEmpty(SPEC, PolicyName, PolicyType, ResourceID, ScalableDimension, ServiceNamespace, f, g);
  }

  lemma StepExact(reading: NilReading, f: Tree<PolicyLeaf>, g: Tree<PolicyLeaf>,
                  v: Option<StepValue>, u: Option<StepValue>)
    requires Agree(f, g, SPEC)
    requires ShowsStep(reading, f, v) && ShowsStep(reading, g, u)
    ensures Recorded(STEP_SECTION, f, g) == [] <==> ReadMaybeStep(reading, v) == ReadMaybeStep(reading, u)
  {
    RecordGroup(SPEC, StepConfig, Members(STEP, STEP_FIELDS), f, g);
    if v.None? && u.None? {
      RecordedNone(Members(STEP, STEP_FIELDS), f, g);
    } else if v.Some? && u.Some? {
      OnesEmpty(STEP, AdjustmentType, Cooldown, MetricAggregationType, MinAdjustmentMagnitude, StepAdjustments, f, g);
    }
  }

  lemma CustomizedExact(reading: NilReading, f: Tree<PolicyLeaf>, g: Tree<PolicyLeaf>,
                        v: Option<CustomizedValue>, u: Option<CustomizedValue>)
    requires Agree(f, g, TRACKING)
    requires ShowsCustomized(reading, f, v) && ShowsCustomized(reading, g, u)
    ensures Recorded(CUSTOMIZED_SECTION, f, g) == [] <==> ReadCustomized(reading, v) == ReadCustomized(reading, u)
  {
    RecordGroup(TRACKING, CustomizedMetric, Members(CUSTOMIZED, CUSTOMIZED_FIELDS), f, g);
    if v.None? && u.None? {
      RecordedNone(Members(CUSTOMIZED, CUSTOMIZED_FIELDS), f, g);
    } else if v.Some? && u.Some? {
      OnesEmpty(CUSTOMIZED, Dimensions, MetricName, Namespace, Statistic, Unit, f, g);
    }
  }

  lemma PredefinedExact(reading: NilReading, f: Tree<PolicyLeaf>, g: Tree<PolicyLeaf>,
                        v: Option<PredefinedValue>, u: Option<PredefinedValue>)
    requires Agree(f, g, TRACKING)
    requires ShowsPredefined(reading, f, v) && ShowsPredefined(reading, g, u)
    ensures Recorded(PREDEFINED_SECTION, f, g) == [] <==> ReadPredefined(reading, v) == ReadPredefined(reading, u)
  {
    RecordGroup(TRACKING, PredefinedMetric, Members(PREDEFINED, PREDEFINED_FIELDS), f, g);
    var r := Recorded(Members(PREDEFINED, PREDEFINED_FIELDS), f, g);
    if v.None? && u.None? {
      RecordedNone(Members(PREDEFINED, PREDEFINED_FIELDS), f, g);
    } else if v.Some? && u.Some? {
      RecordTwo([], PREDEFINED, PredefinedMetricType, ResourceLabel, f, g);
      assert [] + r == r;
    }
  }

  lemma TrackingExact(reading: NilReading, f: Tree<PolicyLeaf>, g: Tree<PolicyLeaf>,
                      v: Option<TrackingValue>, u: Option<TrackingValue>)
    requires Agree(f, g, SPEC)
    requires ShowsTracking(reading, f, v) && ShowsTracking(reading, g, u)
    ensures Recorded(TRACKING_SECTION, f, g) == [] <==> ReadTracking(reading, v) == ReadTracking(reading, u)
  {
    TrackingMembersInside();
    RecordGroup(SPEC, TrackingConfig, TRACKING_MEMBERS, f, g);
    if v.None? && u.None? {
      RecordedNone(TRACKING_MEMBERS, f, g);
    } else if v.Some? && u.Some? {
      TrackingMembersExact(reading, f, g, v.value, u.value);
    }
  }

  lemma TrackingMembersExact(reading: NilReading, f: Tree<PolicyLeaf>, g: Tree<PolicyLeaf>,
                             v: TrackingValue, u: TrackingValue)
    requires Agree(f, g, TRACKING)
    requires TrackingMembersShow(reading, f, v) && TrackingMembersShow(reading, g, u)
    ensures Recorded(TRACKING_MEMBERS, f, g) == [] <==> ReadTracking(reading, Some(v)) == ReadTracking(reading, Some(u))
  {
    TrackingMembersSplit([], f, g);
    CustomizedExact(reading, f, g, v.customized, u.customized);
    PredefinedExact(reading, f, g, v.predefined, u.predefined);
    RecordThree([], TRACKING, ScaleInCooldown, ScaleOutCooldown, TargetValue, f, g);
    var r := Recorded(TRACKING_MEMBERS, f, g);
    assert [] + r == r;
  }

  /** The comparison is exact: no difference is recorded iff the two Specs read the same. */
  lemma DeltaExact(reading: NilReading, v: PolicyValue, u: PolicyValue)
    ensures Recorded(POLICY_SCHEMA, PolicyTree(reading, v), PolicyTree(reading, u)) == []
            <==> ReadPolicy(reading, v) == ReadPolicy(reading, u)
  {
    var f, g := PolicyTree(reading, v), PolicyTree(reading, u);
    SpecAgrees(f, g);
    SchemaSplit(f, g);
    NamesTree(reading, v);
    NamesTree(reading, u);
    NamesExact(reading, f, g, v, u);
    StepTree(reading, v);
    StepTree(reading, u);
    StepExact(reading, f, g, v.step, u.step);
    TrackingTree(reading, v);
    TrackingTree(reading, u);
    TrackingExact(reading, f, g, v.tracking, u.tracking);
  }

  ghost predicate Same(reading: NilReading, v: PolicyValue, u: PolicyValue) {
    Recorded(POLICY_SCHEMA, PolicyTree(reading, v), PolicyTree(reading, u)) == []
  }

  /** "No difference" is an equivalence, so a chain of silent comparisons cannot hide a drift. */
  lemma SameIsEquivalence(reading: NilReading, v: PolicyValue, u: PolicyValue, w: PolicyValue)
    ensures Same(reading, v, v)
    ensures Same(reading, v, u) <==> Same(reading, u, v)
    ensures Same(reading, v, u) && Same(reading, u, w) ==> Same(reading, v, w)
  {
    DeltaExact(reading, v, v);
    DeltaExact(reading, v, u);
    DeltaExact(reading, u, v);
    DeltaExact(reading, u, w);
    DeltaExact(reading, v, w);
  }

  // ----- The shape of the recorded paths -----

  /** The position of a path in the schema. */
  ghost function Rank(p: Path): int {
    if |p| == 2 then
      match p[1]
      case PolicyName => 0 case PolicyType => 1 case ResourceID => 2 case ScalableDimension => 3
      case ServiceNamespace => 4 case StepConfig => 5 case TrackingConfig => 11 case _ => -1
    else if |p| == 3 then
      match p[2]
      case AdjustmentType => 6 case Cooldown => 7 case MetricAggregationType => 8
      case MinAdjustmentMagnitude => 9 case StepAdjustments => 10
      case CustomizedMetric => 12 case DisableScaleIn => 18 case PredefinedMetric => 19
      case ScaleInCooldown => 22 case ScaleOutCooldown => 23 case TargetValue => 24 case _ => -1
    else if |p| == 4 then
      match p[3]
      case Dimensions => 13 case MetricName => 14 case Namespace => 15 case Statistic => 16 case Unit => 17
      case PredefinedMetricType => 20 case ResourceLabel => 21 case _ => -1
    else -1
  }

  lemma SchemaRanked()
    ensures |POLICY_SCHEMA| == 25
    ensures forall i :: 0 <= i < |POLICY_SCHEMA| ==> Rank(POLICY_SCHEMA[i]) == i
  {
  }

  /** Every recorded path names values that really differ. */
  lemma DeltaPathsDiffer(reading: NilReading, v: PolicyValue, u: PolicyValue, p: Path)
    requires p in Recorded(POLICY_SCHEMA, PolicyTree(reading, v), PolicyTree(reading, u))
    ensures NodeAt(reading, v, p) != NodeAt(reading, u, p)
  {
    RecordedMember(POLICY_SCHEMA, PolicyTree(reading, v), PolicyTree(reading, u), p);
  }

  /** No path twice, none inside another, and the same list with the arguments swapped. */
  lemma DeltaShape(reading: NilReading, v: PolicyValue, u: PolicyValue)
    ensures var ps := Recorded(POLICY_SCHEMA, PolicyTree(reading, v), PolicyTree(reading, u));
            && Distinct(ps)
            && (forall i, j :: 0 <= i < |ps| && 0 <= j < |ps| && |ps[i]| < |ps[j]| ==> ps[j][..|ps[i]|] != ps[i])
            && ps == Recorded(POLICY_SCHEMA, PolicyTree(reading, u), PolicyTree(reading, v))
  {
    var f, g := PolicyTree(reading, v), PolicyTree(reading, u);
    var ps := Recorded(POLICY_SCHEMA, f, g);
    SchemaRanked();
    RecordedDistinct(POLICY_SCHEMA, f, g);
    RecordedSymmetric(POLICY_SCHEMA, f, g);
    forall i, j | 0 <= i < |ps| && 0 <= j < |ps| && |ps[i]| < |ps[j]|
      ensures ps[j][..|ps[i]|] != ps[i]
    {
      RecordedPrefixFree(POLICY_SCHEMA, f, g, ps[i], ps[j]);
    }
  }
}
