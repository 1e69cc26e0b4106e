/** Which path a ScalableTarget comparison records for which difference, path by path and in plain terms. */
module TargetPaths {
  import opened Pointers
  import opened TargetApi
  import opened Deltas
  import PolicyPaths
  import TargetDelta

  lemma TopPath(reading: NilReading, a: TargetValue, b: TargetValue, m: Field)
    requires [Spec, m] in TargetDelta.TARGET_SCHEMA
    ensures [Spec, m] in TargetDelta.Differences(reading, a, b)
            <==> TargetDelta.SpecNode(reading, TargetDelta.Defaults(a, b), m) != TargetDelta.SpecNode(reading, b, m)
  {
    var f := TargetDelta.TargetTree(reading, TargetDelta.Defaults(a, b));
    var g := TargetDelta.TargetTree(reading, b);
    RecordedMember(TargetDelta.TARGET_SCHEMA, f, g, [Spec, m]);
    MinimalTop(f, g, Spec, m);
  }

  lemma SuspensionPath(reading: NilReading, a: TargetValue, b: TargetValue, m: Field)
    requires [Spec, SuspendedState, m] in TargetDelta.TARGET_SCHEMA
    ensures var v := TargetDelta.Defaults(a, b);
            [Spec, SuspendedState, m] in TargetDelta.Differences(reading, a, b)
            <==> && v.suspendedState.Some? && b.suspendedState.Some?
                 && TargetDelta.SuspendedNode(v.suspendedState.value, m)
                    != TargetDelta.SuspendedNode(b.suspendedState.value, m)
  {
    var f := TargetDelta.TargetTree(reading, TargetDelta.Defaults(a, b));
    var g := TargetDelta.TargetTree(reading, b);
    RecordedMember(TargetDelta.TARGET_SCHEMA, f, g, [Spec, SuspendedState, m]);
    MinimalInner(f, g, Spec, SuspendedState, m);
  }

  lemma SchemaIn(p: Path)
    requires p in Members(TargetDelta.SPEC, TargetDelta.CAPACITY_FIELDS)
             || p in Members(TargetDelta.SPEC, TargetDelta.NAME_FIELDS) || p in TargetDelta.SUSPENDED_SECTION
    ensures p in TargetDelta.TARGET_SCHEMA
  {
  }

  lemma TopIn(m: Field)
    requires m in TargetDelta.CAPACITY_FIELDS || m in TargetDelta.NAME_FIELDS || m == SuspendedState
    ensures [Spec, m] in TargetDelta.TARGET_SCHEMA
  {
    assert [Spec] + [m] == [Spec, m];
    PolicyPaths.MemberIn([Spec], [m], 0);
    if m in TargetDelta.CAPACITY_FIELDS {
      var i :| 0 <= i < |TargetDelta.CAPACITY_FIELDS| && TargetDelta.CAPACITY_FIELDS[i] == m;
      PolicyPaths.MemberIn([Spec], TargetDelta.CAPACITY_FIELDS, i);
    } else if m in TargetDelta.NAME_FIELDS {
      var i :| 0 <= i < |TargetDelta.NAME_FIELDS| && TargetDelta.NAME_FIELDS[i] == m;
      PolicyPaths.MemberIn([Spec], TargetDelta.NAME_FIELDS, i);
    }
    SchemaIn([Spec, m]);
  }

  /** The scalar fields by value; the suspension only when the user has wishes and the latest state has none. */
  lemma TopPaths(reading: NilReading, a: TargetValue, b: TargetValue, m: Field)
    requires m in TargetDelta.CAPACITY_FIELDS || m in TargetDelta.NAME_FIELDS || m == SuspendedState
    ensures [Spec, m] in TargetDelta.Differences(reading, a, b)
            <==> match m
                 case MaxCapacity => a.maxCapacity != b.maxCapacity
                 case MinCapacity => a.minCapacity != b.minCapacity
                 case ResourceID => PolicyPaths.StringsDiffer(reading, a.resourceID, b.resourceID)
                 case RoleARN => PolicyPaths.StringsDiffer(reading, a.roleARN, b.roleARN)
                 case RoleRef => a.roleRef != b.roleRef
                 case ScalableDimension => PolicyPaths.StringsDiffer(reading, a.scalableDimension, b.scalableDimension)
                 case ServiceNamespace => PolicyPaths.StringsDiffer(reading, a.serviceNamespace, b.serviceNamespace)
                 case SuspendedState => a.suspendedState.Some? && b.suspendedState.None?
                 case _ => false
  {
    TopIn(m);
    TopPath(reading, a, b, m);
  }

  /** A suspension member: recorded for a wish of the user's that the latest state has otherwise. */
  lemma SuspensionPaths(reading: NilReading, a: TargetValue, b: TargetValue, m: Field)
    requires m in TargetDelta.SUSPENDED_FIELDS
    ensures [Spec, SuspendedState, m] in TargetDelta.Differences(reading, a, b)
            <==> a.suspendedState.Some? && b.suspendedState.Some? &&
                 var x, y := a.suspendedState.value, b.suspendedState.value;
                 match m
                 case DynamicScalingInSuspended => x.dynamicIn.Some? && x.dynamicIn != y.dynamicIn
                 case DynamicScalingOutSuspended => x.dynamicOut.Some? && x.dynamicOut != y.dynamicOut
                 case ScheduledScalingSuspended => x.scheduled.Some? && x.scheduled != y.scheduled
                 case _ => false
  {
    var i :| 0 <= i < |TargetDelta.SUSPENDED_FIELDS| && TargetDelta.SUSPENDED_FIELDS[i] == m;
    PolicyPaths.MemberIn(TargetDelta.SUSPENDED, TargetDelta.SUSPENDED_FIELDS, i);
    assert TargetDelta.SUSPENDED + [m] == [Spec, SuspendedState, m];
    SchemaIn([Spec, SuspendedState, m]);
    SuspensionPath(reading, a, b, m);
  }
}
