/**
 * What `Owned()` covers: every struct, list store, list element and scalar cell that hangs from a struct, pointer
 * by pointer. A deep copy that makes all of `Owned()` new has therefore forgotten none of them.
 */
module Ownership {
  import opened Pointers
  import opened PolicyApi
  import opened PolicyResource
  import Statuses
  import TargetApi

  /** The pointer is nil, or what it points to is in the set. */
  ghost predicate Covers(mine: set<object>, p: object?) {
    p != null ==> p in mine
  }

  // ----- Policies -----

  lemma AdjustmentsCovered(a: Slice?<StepAdjustment?>)
    ensures Covers(AdjustmentsOwned(a), a)
    ensures a != null ==>
      forall i :: 0 <= i < |a.items| && a.items[i] != null ==>
        var e, mine := a.items[i], AdjustmentsOwned(a);
        Covers(mine, e) && Covers(mine, e.lower) && Covers(mine, e.upper) && Covers(mine, e.adjustment)
  {
    if a != null {
      forall i | 0 <= i < |a.items| && a.items[i] != null
        ensures a.items[i] in AdjustmentsIn(a) && a.items[i].Cells() <= AdjustmentsOwned(a)
      {
      }
    }
  }

  lemma DimensionsCovered(a: Slice?<MetricDimension?>)
    ensures Covers(DimensionsOwned(a), a)
    ensures a != null ==>
      forall i :: 0 <= i < |a.items| && a.items[i] != null ==>
        var e, mine := a.items[i], DimensionsOwned(a);
        Covers(mine, e) && Covers(mine, e.name) && Covers(mine, e.value)
  {
    if a != null {
      forall i | 0 <= i < |a.items| && a.items[i] != null
        ensures a.items[i] in DimensionsIn(a) && a.items[i].Cells() <= DimensionsOwned(a)
      {
      }
    }
  }

  lemma StepCovered(s: StepScalingPolicyConfiguration)
    ensures var mine := StepOwned(s);
            && Covers(mine, s) && Covers(mine, s.adjustmentType) && Covers(mine, s.cooldown)
            && Covers(mine, s.metricAggregationType) && Covers(mine, s.minAdjustmentMagnitude)
            && AdjustmentsOwned(s.stepAdjustments) <= mine
  {
  }

  lemma CustomizedCovered(c: CustomizedMetricSpecification)
    ensures var mine := CustomizedOwned(c);
            && Covers(mine, c) && Covers(mine, c.metricName) && Covers(mine, c.namespace)
            && Covers(mine, c.statistic) && Covers(mine, c.unit)
            && DimensionsOwned(c.dimensions) <= mine
  {
  }

  lemma TrackingCovered(t: TargetTrackingScalingPolicyConfiguration)
    ensures var mine := TrackingOwned(t);
            && Covers(mine, t) && Covers(mine, t.disableScaleIn) && Covers(mine, t.scaleInCooldown)
            && Covers(mine, t.scaleOutCooldown) && Covers(mine, t.targetValue)
            && CustomizedOwned(t.customized) <= mine && PredefinedOwned(t.predefined) <= mine
            && (t.predefined != null ==>
                  Covers(mine, t.predefined) && Covers(mine, t.predefined.metricType)
                  && Covers(mine, t.predefined.resourceLabel))
  {
  }

  lemma SpecCovered(spec: ScalingPolicySpec)
    ensures var cells := spec.NameCells();
            && Covers(cells, spec.policyName) && Covers(cells, spec.policyType) && Covers(cells, spec.resourceID)
            && Covers(cells, spec.scalableDimension) && Covers(cells, spec.serviceNamespace)
    ensures spec in spec.Owned() && spec.NameCells() <= spec.Owned()
    ensures StepOwned(spec.step) <= spec.Owned() && TrackingOwned(spec.tracking) <= spec.Owned()
  {
  }

  /** A resource that owns new memory has a new Spec, new structs below it, a new Status and new conditions. */
  twostate lemma PolicyIsNew(new k: ScalingPolicy)
    requires OwnsNewMemory(k)
    ensures fresh(k.spec) && fresh(k.status) && fresh(Statuses.Entries(k.status.conditions))
    ensures k.status.metadata != null ==> fresh(k.status.metadata)
    ensures k.spec.step != null ==> fresh(k.spec.step) && fresh(AdjustmentsIn(k.spec.step.stepAdjustments))
    ensures k.spec.tracking != null ==>
      && fresh(k.spec.tracking)
      && (k.spec.tracking.predefined != null ==> fresh(k.spec.tracking.predefined))
      && (k.spec.tracking.customized != null ==>
            fresh(k.spec.tracking.customized) && fresh(DimensionsIn(k.spec.tracking.customized.dimensions)))
  {
    StructsCovered(k.spec);
  }

  lemma StructsCovered(spec: ScalingPolicySpec)
    ensures Covers(Structs(spec), spec.step) && Covers(Structs(spec), spec.tracking)
    ensures spec.step != null ==>
      Covers(Structs(spec), spec.step.stepAdjustments) && AdjustmentsIn(spec.step.stepAdjustments) <= Structs(spec)
    ensures spec.tracking != null ==>
      Covers(Structs(spec), spec.tracking.predefined) && Covers(Structs(spec), spec.tracking.customized)
    ensures spec.tracking != null && spec.tracking.customized != null ==>
      && Covers(Structs(spec), spec.tracking.customized.dimensions)
      && DimensionsIn(spec.tracking.customized.dimensions) <= Structs(spec)
  {
  }

  // ----- Statuses and targets -----

  lemma ConditionCovered(c: Statuses.Condition)
    ensures c in c.Owned() && Covers(c.Owned(), c.message) && Covers(c.Owned(), c.reason)
  {
  }

  lemma MetadataCovered(m: Statuses.ResourceMetadata)
    ensures var mine := Statuses.MetadataOwned(m);
            && m in mine && Covers(mine, m.arn) && Covers(mine, m.ownerAccountID)
            && Covers(mine, m.region) && Covers(mine, m.partition)
  {
  }

  lemma SuspensionCovered(s: TargetApi.SuspendedState)
    ensures var mine := TargetApi.SuspendedOwned(s);
            && s in mine && Covers(mine, s.dynamicIn) && Covers(mine, s.dynamicOut) && Covers(mine, s.scheduled)
  {
  }

  lemma TargetCovered(spec: TargetApi.ScalableTargetSpec)
    ensures var cells := spec.ScalarCells();
            && Covers(cells, spec.maxCapacity) && Covers(cells, spec.minCapacity) && Covers(cells, spec.resourceID)
            && Covers(cells, spec.roleARN) && Covers(cells, spec.scalableDimension)
            && Covers(cells, spec.serviceNamespace)
    ensures spec.roleRef != null ==>
      var mine := TargetApi.RoleOwned(spec.roleRef);
      && Covers(mine, spec.roleRef) && Covers(mine, spec.roleRef.from)
      && (spec.roleRef.from != null ==>
            Covers(mine, spec.roleRef.from.name) && Covers(mine, spec.roleRef.from.namespace))
  {
  }

  twostate lemma TargetIsNew(new k: TargetApi.ScalableTarget)
    requires TargetApi.OwnsNewMemory(k)
    ensures fresh(k.spec) && fresh(k.status) && fresh(Statuses.Entries(k.status.conditions))
    ensures k.status.metadata != null ==> fresh(k.status.metadata)
    ensures k.spec.suspendedState != null ==> fresh(k.spec.suspendedState)
    ensures k.spec.roleRef != null ==>
      fresh(k.spec.roleRef) && (k.spec.roleRef.from != null ==> fresh(k.spec.roleRef.from))
  {
  }
}
