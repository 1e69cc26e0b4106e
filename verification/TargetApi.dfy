/** The ScalableTarget Spec and resource, with their generated deep copies. */
module TargetApi {
  import opened Pointers
  import opened Statuses

  datatype SuspendedValue = SuspendedValue(dynamicIn: Option<bool>, dynamicOut: Option<bool>, scheduled: Option<bool>)

  datatype ReferenceValue = ReferenceValue(name: Option<string>, namespace: Option<string>)

  /** What a reference to an IAM Role resource in the cluster says. */
  datatype RoleValue = RoleValue(from: Option<ReferenceValue>)

  datatype TargetValue = TargetValue(
    maxCapacity: Option<int64>, minCapacity: Option<int64>, resourceID: Option<string>, roleARN: Option<string>,
    roleRef: Option<RoleValue>, scalableDimension: Option<string>, serviceNamespace: Option<string>,
    suspendedState: Option<SuspendedValue>)

  datatype ResourceValue = ResourceValue(spec: TargetValue, status: StatusValue)

  // ----- Suspension, which the comparison fills in place -----

  class SuspendedState {
    var dynamicIn: Ref?<bool>
    var dynamicOut: Ref?<bool>
    var scheduled: Ref?<bool>

    constructor ()
      ensures View() == SuspendedValue(None, None, None)
      ensures dynamicIn == null && dynamicOut == null && scheduled == null
    {
      dynamicIn, dynamicOut, scheduled := null, null, null;
    }

    ghost function View(): SuspendedValue
      reads this
    {
      SuspendedValue(Deref(dynamicIn), Deref(dynamicOut), Deref(scheduled))
    }

    ghost function Owned(): set<object>
      reads this
    {
      {this} + Cell(dynamicIn) + Cell(dynamicOut) + Cell(scheduled)
    }

    method DeepCopyInto(out: SuspendedState)
      modifies out
      ensures out.View() == old(View())
      ensures fresh(out.Owned() - {out})
    {
      out.dynamicIn, out.dynamicOut, out.scheduled := dynamicIn, dynamicOut, scheduled;
      out.dynamicIn := CopyRef(out.dynamicIn);
      out.dynamicOut := CopyRef(out.dynamicOut);
      out.scheduled := CopyRef(out.scheduled);
    }
  }

  ghost function SuspendedView(s: SuspendedState?): Option<SuspendedValue>
    reads s
  {
    if s == null then None else Some(s.View())
  }

  ghost function SuspendedOwned(s: SuspendedState?): set<object>
    reads s
  {
    if s == null then {} else s.Owned()
  }

  method CopySuspended(s: SuspendedState?) returns (c: SuspendedState?)
    ensures SuspendedView(c) == old(SuspendedView(s))
    ensures fresh(SuspendedOwned(c))
  {
    c := null;
    if s != null {
      c := new SuspendedState();
      s.DeepCopyInto(c);
    }
  }

  // ----- References -----

  class ReferenceFrom {
    var name: Ref?<string>
    var namespace: Ref?<string>

    constructor (name: Ref?<string>, namespace: Ref?<string>)
      ensures this.name == name && this.namespace == namespace
    {
      this.name, this.namespace := name, namespace;
    }

    ghost function View(): ReferenceValue
      reads this
    {
      ReferenceValue(Deref(name), Deref(namespace))
    }
  }

  class RoleReference {
    var from: ReferenceFrom?

    constructor (from: ReferenceFrom?)
      ensures this.from == from
    {
      this.from := from;
    }

    ghost function View(): RoleValue
      reads this, from
    {
      RoleValue(if from == null then None else Some(from.View()))
    }
  }

  function FromOf(r: RoleReference?): ReferenceFrom?
    reads r
  {
    if r == null then null else r.from
  }

  ghost function RoleView(r: RoleReference?): Option<RoleValue>
    reads r, FromOf(r)
  {
    if r == null then None else Some(r.View())
  }

  ghost function RoleOwned(r: RoleReference?): set<object>
    reads r, FromOf(r)
  {
    if r == null then {}
    else {r} + (if r.from == null then {} else {r.from} + Cell(r.from.name) + Cell(r.from.namespace))
  }

  method CopyRole(r: RoleReference?) returns (c: RoleReference?)
    ensures RoleView(c) == old(RoleView(r))
    ensures fresh(RoleOwned(c))
  {
    c := null;
    if r != null {
      var from: ReferenceFrom? := null;
      if r.from != null {
        var name := CopyRef(r.from.name);
        var namespace := CopyRef(r.from.namespace);
        from := new ReferenceFrom(name, namespace);
      }
      c := new RoleReference(from);
    }
  }

  // ----- The Spec -----

  class ScalableTargetSpec {
    var maxCapacity: Ref?<int64>
    var minCapacity: Ref?<int64>
    var resourceID: Ref?<string>
    var roleARN: Ref?<string>
    var roleRef: RoleReference?
    var scalableDimension: Ref?<string>
    var serviceNamespace: Ref?<string>
    var suspendedState: SuspendedState?

    constructor ()
      ensures suspendedState == null && roleRef == null
    {
      maxCapacity, minCapacity, resourceID, roleARN, roleRef := null, null, null, null, null;
      scalableDimension, serviceNamespace, suspendedState := null, null, null;
    }

    ghost function View(): TargetValue
      reads this, suspendedState, roleRef, FromOf(roleRef)
    {
      TargetValue(Deref(maxCapacity), Deref(minCapacity), Deref(resourceID), Deref(roleARN), RoleView(roleRef),
                  Deref(scalableDimension), Deref(serviceNamespace), SuspendedView(suspendedState))
    }

    ghost function ScalarCells(): set<object>
      reads this
    {
      Cell(maxCapacity) + Cell(minCapacity) + Cell(resourceID) + Cell(roleARN)
      + Cell(scalableDimension) + Cell(serviceNamespace)
    }

    method ShallowCopyInto(out: ScalableTargetSpec)
      modifies out
      ensures out.View() == old(View())
    {
      out.maxCapacity, out.minCapacity, out.resourceID, out.roleARN := maxCapacity, minCapacity, resourceID, roleARN;
      out.roleRef, out.scalableDimension, out.serviceNamespace := roleRef, scalableDimension, serviceNamespace;
      out.suspendedState := suspendedState;
    }

    method UnshareCapacities()
      modifies `maxCapacity, `minCapacity
      ensures Deref(maxCapacity) == old(Deref(maxCapacity)) && Deref(minCapacity) == old(Deref(minCapacity))
      ensures fresh(Cell(maxCapacity) + Cell(minCapacity))
    {
      maxCapacity := CopyRef(maxCapacity);
      minCapacity := CopyRef(minCapacity);
    }

    method UnshareNames()
      modifies `resourceID, `roleARN, `scalableDimension, `serviceNamespace
      ensures Deref(resourceID) == old(Deref(resourceID)) && Deref(roleARN) == old(Deref(roleARN))
      ensures Deref(scalableDimension) == old(Deref(scalableDimension))
      ensures Deref(serviceNamespace) == old(Deref(serviceNamespace))
      ensures fresh(Cell(resourceID) + Cell(roleARN) + Cell(scalableDimension) + Cell(serviceNamespace))
    {
      resourceID := CopyRef(resourceID);
      roleARN := CopyRef(roleARN);
      scalableDimension := CopyRef(scalableDimension);
      serviceNamespace := CopyRef(serviceNamespace);
    }

    method UnshareScalars()
      modifies `maxCapacity, `minCapacity, `resourceID, `roleARN, `scalableDimension, `serviceNamespace
      ensures View() == old(View())
      ensures fresh(ScalarCells())
    {
      UnshareCapacities();
      UnshareNames();
    }

    method UnshareStructs()
      modifies `roleRef, `suspendedState
      ensures RoleView(roleRef) == old(RoleView(roleRef))
      ensures SuspendedView(suspendedState) == old(SuspendedView(suspendedState))
      ensures fresh(RoleOwned(roleRef)) && fresh(SuspendedOwned(suspendedState))
    {
      roleRef := CopyRole(roleRef);
      suspendedState := CopySuspended(suspendedState);
    }

    /** Afterwards `out` means what the receiver meant and, `out` itself aside, owns only new memory. */
    method DeepCopyInto(out: ScalableTargetSpec)
      modifies out
      ensures out.View() == old(View())
      ensures fresh(out.ScalarCells()) && fresh(RoleOwned(out.roleRef)) && fresh(SuspendedOwned(out.suspendedState))
    {
      ShallowCopyInto(out);
      out.UnshareScalars();
      out.UnshareStructs();
    }
  }

  // ----- The resource -----

  class ScalableTarget {
    const namespace: string
    const spec: ScalableTargetSpec
    const status: Status

    constructor (namespace: string, spec: ScalableTargetSpec, status: Status)
      ensures this.namespace == namespace && this.spec == spec && this.status == status
    {
      this.namespace, this.spec, this.status := namespace, spec, status;
    }

    ghost function View(): ResourceValue
      reads spec, spec.suspendedState, spec.roleRef, FromOf(spec.roleRef)
      reads status, status.metadata, Entries(status.conditions)
    {
      ResourceValue(spec.View(), status.View())
    }

    method CopySpec() returns (sp: ScalableTargetSpec)
      ensures sp.View() == old(spec.View())
      ensures fresh(sp)
      ensures fresh(sp.ScalarCells()) && fresh(RoleOwned(sp.roleRef)) && fresh(SuspendedOwned(sp.suspendedState))
    {
      sp := new ScalableTargetSpec();
      spec.DeepCopyInto(sp);
    }

    method CopyStatusPart() returns (st: Status)
      ensures spec.View() == old(spec.View())
      ensures st.View() == old(status.View())
      ensures fresh(st) && fresh(MetadataOwned(st.metadata))
      ensures fresh(Entries(st.conditions)) && EntriesApart(st.conditions)
    {
      st := CopyStatus(status);
    }

    method CopyParts() returns (sp: ScalableTargetSpec, st: Status)
      ensures sp.View() == old(spec.View()) && st.View() == old(status.View())
      ensures fresh(sp) && fresh(RoleOwned(sp.roleRef)) && fresh(SuspendedOwned(sp.suspendedState))
      ensures fresh(st) && fresh(MetadataOwned(st.metadata))
      ensures fresh(Entries(st.conditions)) && EntriesApart(st.conditions)
    {
      st := CopyStatusPart();
      sp := CopySpec();
    }

    method DeepCopy() returns (out: ScalableTarget)
      ensures out.namespace == namespace
      ensures out.View() == old(View())
      ensures fresh(out) && OwnsNewMemory(out) && EntriesApart(out.status.conditions)
    {
      var sp, st := CopyParts();
      out := Assemble(namespace, sp, st);
    }

    static method Assemble(namespace: string, sp: ScalableTargetSpec, st: Status) returns (out: ScalableTarget)
      ensures out.View() == ResourceValue(old(sp.View()), old(st.View())) && out.namespace == namespace
      ensures fresh(out) && out.spec == sp && out.status == st
    {
      out := new ScalableTarget(namespace, sp, st);
    }
  }

  /** Nothing inside the resource that can be written to is shared with older memory. */
  twostate predicate OwnsNewMemory(new k: ScalableTarget)
    reads k, k.spec, k.spec.roleRef, k.status
  {
    && fresh(k.spec) && fresh(k.status)
    && (k.spec.suspendedState != null ==> fresh(k.spec.suspendedState))
    && (k.spec.roleRef != null ==> fresh(k.spec.roleRef))
    && (FromOf(k.spec.roleRef) != null ==> fresh(FromOf(k.spec.roleRef)))
    && (k.status.metadata != null ==> fresh(k.status.metadata))
    && fresh(Entries(k.status.conditions))
  }
}
