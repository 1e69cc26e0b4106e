/** A ScalingPolicy custom resource. */
module PolicyResource {
  import opened Pointers
  import opened PolicyApi
  import opened Statuses
  import opened Wire

  datatype ResourceValue = ResourceValue(spec: PolicyValue, status: StatusValue, alarms: Option<seq<Alarm>>)

  class ScalingPolicy {
    const spec: ScalingPolicySpec
    const status: Status
    var alarms: Option<seq<Alarm>>

    constructor (spec: ScalingPolicySpec, status: Status, alarms: Option<seq<Alarm>>)
      ensures this.spec == spec && this.status == status && this.alarms == alarms
    {
      this.spec, this.status, this.alarms := spec, status, alarms;
    }

    ghost function View(): ResourceValue
      reads this, spec, spec.step, StepsOf(spec.step), AdjustmentsIn(StepsOf(spec.step))
      reads spec.tracking, CustomizedOf(spec.tracking), SliceOf(CustomizedOf(spec.tracking))
      reads DimensionsIn(SliceOf(CustomizedOf(spec.tracking))), PredefinedOf(spec.tracking)
      reads status, status.metadata, Entries(status.conditions)
    {
      ResourceValue(spec.View(), status.View(), alarms)
    }

    method CopyParts() returns (sp: ScalingPolicySpec, st: Status)
      ensures sp.View() == old(spec.View()) && st.View() == old(status.View())
      ensures fresh(sp) && NewStructs(sp)
      ensures fresh(st) && fresh(MetadataOwned(st.metadata))
      ensures fresh(Entries(st.conditions)) && EntriesApart(st.conditions)
    {
      st := CopyStatusPart();
      sp := CopySpec();
    }

    method CopyStatusPart() returns (st: Status)
      ensures spec.View() == old(spec.View())
      ensures st.View() == old(status.View())
      ensures fresh(st) && fresh(MetadataOwned(st.metadata))
      ensures fresh(Entries(st.conditions)) && EntriesApart(st.conditions)
    {
      st := CopyStatus(status);
    }

    method CopySpec() returns (sp: ScalingPolicySpec)
      ensures sp.View() == old(spec.View())
      ensures fresh(sp) && NewStructs(sp)
    {
      sp := spec.DeepCopy();
      OwnedMeansNew(sp);
    }

    method DeepCopy() returns (out: ScalingPolicy)
      ensures out.View() == old(View())
      ensures fresh(out) && OwnsNewMemory(out) && EntriesApart(out.status.conditions)
    {
      var sp, st := CopyParts();
      out := Assemble(sp, st, alarms);
    }

    static method Assemble(sp: ScalingPolicySpec, st: Status, alarms: Option<seq<Alarm>>) returns (out: ScalingPolicy)
      ensures out.View() == ResourceValue(old(sp.View()), old(st.View()), alarms)
      ensures fresh(out) && out.spec == sp && out.status == st && Structs(sp) == old(Structs(sp))
    {
      out := new ScalingPolicy(sp, st, alarms);
    }
  }

  ghost function StepStructs(s: StepScalingPolicyConfiguration?): set<object>
    reads s, StepsOf(s)
  {
    Only(s) + Only(StepsOf(s)) + AdjustmentsIn(StepsOf(s))
  }

  ghost function TrackingStructs(t: TargetTrackingScalingPolicyConfiguration?): set<object>
    reads t, CustomizedOf(t), SliceOf(CustomizedOf(t))
  {
    Only(t) + Only(PredefinedOf(t)) + Only(CustomizedOf(t)) + Only(SliceOf(CustomizedOf(t)))
    + DimensionsIn(SliceOf(CustomizedOf(t)))
  }

  /** The structs below a Spec, list stores and list elements included. */
  ghost function Structs(spec: ScalingPolicySpec): set<object>
    reads spec, spec.step, StepsOf(spec.step)
    reads spec.tracking, CustomizedOf(spec.tracking), SliceOf(CustomizedOf(spec.tracking))
  {
    StepStructs(spec.step) + TrackingStructs(spec.tracking)
  }

  /** None of them is shared with older memory. */
  twostate predicate NewStructs(new spec: ScalingPolicySpec)
    reads spec, spec.step, StepsOf(spec.step)
    reads spec.tracking, CustomizedOf(spec.tracking), SliceOf(CustomizedOf(spec.tracking))
  {
    fresh(Structs(spec))
  }

  lemma StepStructsOwned(s: StepScalingPolicyConfiguration?)
    ensures StepStructs(s) <= StepOwned(s)
  {
  }

  lemma TrackingStructsOwned(t: TargetTrackingScalingPolicyConfiguration?)
    ensures TrackingStructs(t) <= TrackingOwned(t)
  {
  }

  twostate lemma OwnedMeansNew(new spec: ScalingPolicySpec)
    requires fresh(StepOwned(spec.step)) && fresh(TrackingOwned(spec.tracking))
    ensures NewStructs(spec)
  {
    StepStructsOwned(spec.step);
    TrackingStructsOwned(spec.tracking);
  }

  /** Nothing inside the resource that can be written to is shared with older memory. */
  twostate predicate OwnsNewMemory(new k: ScalingPolicy)
    reads k, k.spec, k.spec.step, StepsOf(k.spec.step)
    reads k.spec.tracking, CustomizedOf(k.spec.tracking), SliceOf(CustomizedOf(k.spec.tracking))
    reads k.status
  {
    && fresh(k.spec) && fresh(k.status) && NewStructs(k.spec)
    && (k.status.metadata != null ==> fresh(k.status.metadata))
    && fresh(Entries(k.status.conditions))
  }
}
