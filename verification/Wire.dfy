/**
 * The AWS SDK request and response shapes. Enum strings use "" for absent, integers are 32-bit, list
 * elements are structs rather than pointers.
 */
module Wire {
  import opened Pointers

  datatype SdkStepAdjustment = SdkStepAdjustment(lower: Option<real>, upper: Option<real>, adjustment: Option<int32>)

  datatype SdkStep = SdkStep(
    adjustmentType: string, cooldown: Option<int32>, metricAggregationType: string,
    minAdjustmentMagnitude: Option<int32>, stepAdjustments: Option<seq<SdkStepAdjustment>>)

  datatype SdkDimension = SdkDimension(name: Option<string>, value: Option<string>)

  datatype SdkCustomized = SdkCustomized(
    dimensions: Option<seq<SdkDimension>>, metricName: Option<string>, namespace: Option<string>,
    statistic: string, unit: Option<string>)

  datatype SdkPredefined = SdkPredefined(metricType: string, resourceLabel: Option<string>)

  datatype SdkTracking = SdkTracking(
    customized: Option<SdkCustomized>, disableScaleIn: Option<bool>, predefined: Option<SdkPredefined>,
    scaleInCooldown: Option<int32>, scaleOutCooldown: Option<int32>, targetValue: Option<real>)

  /** PutScalingPolicyInput, and the part of a described policy that carries the same fields. */
  datatype SdkPolicySettings = SdkPolicySettings(
    policyName: Option<string>, policyType: string, resourceId: Option<string>,
    scalableDimension: string, serviceNamespace: string,
    step: Option<SdkStep>, tracking: Option<SdkTracking>)

  datatype Alarm = Alarm(arn: Option<string>, name: Option<string>)

  /** One element of DescribeScalingPoliciesOutput. */
  datatype SdkPolicy = SdkPolicy(
    settings: SdkPolicySettings, alarms: Option<seq<Alarm>>, creationTime: Option<int>, policyARN: Option<string>)

  datatype SdkSuspendedState = SdkSuspendedState(
    dynamicIn: Option<bool>, dynamicOut: Option<bool>, scheduled: Option<bool>)

  /** RegisterScalableTargetInput, and the part of a described target that carries the same fields. */
  datatype SdkTargetSettings = SdkTargetSettings(
    maxCapacity: Option<int32>, minCapacity: Option<int32>, resourceId: Option<string>, roleARN: Option<string>,
    scalableDimension: string, serviceNamespace: string, suspendedState: Option<SdkSuspendedState>)

  /** One element of DescribeScalableTargetsOutput. */
  datatype SdkTarget = SdkTarget(
    settings: SdkTargetSettings, creationTime: Option<int>, scalableTargetARN: Option<string>)

  /** A Spec field that the SDK types as int32. */
  datatype Int32Field =
    | Cooldown | MinAdjustmentMagnitude | ScalingAdjustment | ScaleInCooldown | ScaleOutCooldown
    | MaxCapacity | MinCapacity

  // ----- When a Spec scalar and a wire scalar say the same thing -----

  ghost predicate IntMeans(w: Option<int32>, v: Option<int64>) {
    match (w, v)
    case (None, None) => true
    case (Some(x), Some(y)) => x as int == y as int
    case _ => false
  }

  ghost predicate EnumMeans(w: string, v: Option<string>) {
    match v
    case None => w == ""
    case Some(s) => w == s
  }

  /** The plain string an input carries for an enum key: "" for nil. */
  function EnumString(v: Option<string>): string {
    if v.None? then "" else v.value
  }

  /** No pointer to "": the only enum value that the wire cannot tell from nil. */
  predicate EnumCanonical(v: Option<string>) {
    v != Some("")
  }

  /** The canonical form of an enum field. */
  ghost function CanonEnum(v: Option<string>): Option<string> {
    if v == Some("") then None else v
  }

  // ----- Range checks -----

  predicate FitsInt32(x: int64) {
    MIN_INT32 <= x <= MAX_INT32
  }

  /** The present integer fields of a Spec, in the order in which the payload is built. */
  type IntFields = seq<(Int32Field, int64)>

  function IntField(f: Int32Field, v: Option<int64>): IntFields {
    match v
    case None => []
    case Some(x) => [(f, x)]
  }

  function FirstMisfit(fs: IntFields): Option<Int32Field> {
    if fs == [] then None
    else if FitsInt32(fs[0].1) then FirstMisfit(fs[1..])
    else Some(fs[0].0)
  }

  ghost predicate SameNumber(w: int32, x: int64) {
    w as int == x as int
  }

  /** The range check is the range of the type the value is narrowed to, no narrower and no wider. */
  lemma FitsExactly(x: int64)
    ensures FitsInt32(x) <==> -0x8000_0000 <= x as int < 0x8000_0000
    ensures FitsInt32(x) <==> exists w: int32 :: SameNumber(w, x)
  {
    if FitsInt32(x) {
      assert SameNumber(x as int32, x);
    }
  }

  /** No misfit iff every value is in range; otherwise the field of the first one that is not. */
  lemma {:induction false} FirstMisfitMeaning(fs: IntFields)
    ensures FirstMisfit(fs).None? <==> forall i :: 0 <= i < |fs| ==> -0x8000_0000 <= fs[i].1 as int < 0x8000_0000
    ensures FirstMisfit(fs).Some? ==>
      exists i :: 0 <= i < |fs| && fs[i].0 == FirstMisfit(fs).value
                  && !(-0x8000_0000 <= fs[i].1 as int < 0x8000_0000)
                  && forall j :: 0 <= j < i ==> -0x8000_0000 <= fs[j].1 as int < 0x8000_0000
  {
    if fs != [] {
      FitsExactly(fs[0].1);
      FirstMisfitMeaning(fs[1..]);
      assert forall i :: 0 <= i < |fs[1..]| ==> fs[1..][i] == fs[i + 1];
      if FitsInt32(fs[0].1) && FirstMisfit(fs[1..]).Some? {
        var i :| 0 <= i < |fs[1..]| && fs[1..][i].0 == FirstMisfit(fs[1..]).value
                 && !(-0x8000_0000 <= fs[1..][i].1 as int < 0x8000_0000)
                 && forall j :: 0 <= j < i ==> -0x8000_0000 <= fs[1..][j].1 as int < 0x8000_0000;
        assert fs[i + 1].0 == FirstMisfit(fs).value;
        assert forall j :: 0 < j < i + 1 ==> fs[j] == fs[1..][j - 1];
      }
    }
  }

  lemma {:induction false} FirstMisfitAppend(a: IntFields, b: IntFields)
    ensures FirstMisfit(a + b) == if FirstMisfit(a).Some? then FirstMisfit(a) else FirstMisfit(b)
  {
    if a == [] {
      assert a + b == b;
    } else {
      assert (a + b)[1..] == a[1..] + b;
      FirstMisfitAppend(a[1..], b);
    }
  }

  /** The checked narrowing of one optional integer. */
  method Narrow(p: Ref?<int64>, f: Int32Field) returns (r: Result<Option<int32>, Int32Field>)
    ensures r.Err? <==> p != null && !(-0x8000_0000 <= p.v as int < 0x8000_0000)
    ensures r.Ok? ==> (r.value.None? <==> p == null) && (p != null ==> r.value.value as int == p.v as int)
    ensures r.Ok? ==> IntMeans(r.value, Deref(p)) && FirstMisfit(IntField(f, Deref(p))).None?
    ensures r.Err? ==> r.error == f && FirstMisfit(IntField(f, Deref(p))) == Some(f)
  {
    if p == null {
      return Ok(None);
    }
    if p.v > MAX_INT32 || p.v < MIN_INT32 {
      return Err(f);
    }
    return Ok(Some(p.v as int32));
  }

  /** The same in the encoders' terms: the fields looked at so far. */
  method NarrowField(p: Ref?<int64>, f: Int32Field) returns (r: Result<Option<int32>, Int32Field>)
    ensures r.Ok? ==> IntMeans(r.value, Deref(p)) && FirstMisfit(IntField(f, Deref(p))).None?
    ensures r.Err? ==> r.error == f && FirstMisfit(IntField(f, Deref(p))) == Some(f)
  {
    r := Narrow(p, f);
  }

  /** The widening back: every int32 is an int64. */
  method Widen(w: Option<int32>) returns (p: Ref?<int64>)
    ensures IntMeans(w, Deref(p))
    ensures fresh(Cell(p))
  {
    p := null;
    if w.Some? {
      p := new Ref(w.value as int64);
    }
  }

  /** An enum string becomes a pointer unless it is empty. */
  method EnumRef(w: string) returns (p: Ref?<string>)
    ensures EnumMeans(w, Deref(p)) && EnumCanonical(Deref(p))
    ensures fresh(Cell(p))
  {
    p := null;
    if w != "" {
      p := new Ref(w);
    }
  }
}
